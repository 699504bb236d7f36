/** nonblock/strclinonb.c: two linear buffers between stdin, a socket and stdout, all nonblocking. */
module Relay {

  const MAXLINE := 4096

  /** What read returns: `Got("")` is a return of 0. */
  datatype ReadResult = Got(bytes: string) | ReadBlocks | ReadFails

  /** read(2): at most `n` of the bytes to come, in order; none exactly if none are asked for, or none are to come. */
  predicate ReadMay(r: ReadResult, rest: string, n: int) {
    r.Got? ==> |r.bytes| <= n && r.bytes <= rest && (r.bytes == "" <==> n == 0 || rest == "")
  }

  datatype WriteResult = Wrote(n: nat) | WriteBlocks | WriteFails

  /** What one turn of the loop meets: the descriptors that select reports, and the calls' results. */
  datatype Round = Round(
    stdinReady: bool, sockReadable: bool, sockWritable: bool, stdoutWritable: bool,
    stdinRead: ReadResult, sockRead: ReadResult, stdoutWrite: WriteResult, sockWrite: WriteResult)

  /** A buffer: what is stored in it, and the two pointers into it. */
  datatype Buffer = Buffer(store: string, iptr: nat, optr: nat)

  predicate Sized(b: Buffer) { |b.store| == MAXLINE && b.optr <= b.iptr <= MAXLINE }

  /** Read but not yet written. */
  function Pending(b: Buffer): string
    requires Sized(b)
  {
    b.store[b.optr..b.iptr]
  }

  function Space(b: Buffer): int { MAXLINE - b.iptr }

  function Stored(b: Buffer, bytes: string): Buffer
    requires Sized(b) && |bytes| <= Space(b)
  {
    b.(store := b.store[..b.iptr] + bytes + b.store[b.iptr + |bytes|..], iptr := b.iptr + |bytes|)
  }

  /** After a write of `n` bytes; an emptied buffer starts over. */
  function Drained(b: Buffer, n: nat): Buffer {
    if b.optr + n == b.iptr then b.(iptr := 0, optr := 0) else b.(optr := b.optr + n)
  }

  datatype Status = Running | Finished | ServerQuit | Failed

  /** What goes out on the socket. */
  datatype Out = Bytes(bytes: string) | Fin

  /**
   * The function's variables, the record of what passed through the descriptors, and what stdin and the server have
   * yet to deliver before their end of file.
   */
  datatype State = State(
    to: Buffer, fr: Buffer, stdineof: bool, status: Status,
    fromStdin: string, toSocket: seq<Out>, fromSocket: string, toStdout: string,
    stdinRest: string, sockRest: string)

  /** The descriptors that select is asked to wait for. */
  datatype Asked = Asked(stdin: bool, sockRead: bool, sockWrite: bool, stdout: bool)

  function AskedIn(s: State): Asked {
    Asked(!s.stdineof && s.to.iptr < MAXLINE, s.fr.iptr < MAXLINE, s.to.optr != s.to.iptr, s.fr.optr != s.fr.iptr)
  }

  /** Nothing has been read. */
  predicate SameReads(s: State, t: State) {
    && t.fromStdin == s.fromStdin && t.stdinRest == s.stdinRest
    && t.fromSocket == s.fromSocket && t.sockRest == s.sockRest
  }

  // ---------------------------------------------------------------- the four blocks of the loop

  function ReadStdin(s: State, r: ReadResult): (t: State)
    requires Sized(s.to) && ReadMay(r, s.stdinRest, Space(s.to))
    ensures t.fr == s.fr && t.toStdout == s.toStdout && t.sockRest == s.sockRest && Sized(t.to)
  {
    match r
    case ReadBlocks => s
    case ReadFails => s.(status := Failed)
    case Got(bytes) =>
      if bytes == "" then
        s.(stdineof := true, toSocket := if s.to.optr == s.to.iptr then s.toSocket + [Fin] else s.toSocket)
      else
        s.(to := Stored(s.to, bytes), fromStdin := s.fromStdin + bytes, stdinRest := s.stdinRest[|bytes|..])
  }

  function ReadSocket(s: State, r: ReadResult): (t: State)
    requires Sized(s.fr) && ReadMay(r, s.sockRest, Space(s.fr))
    ensures t.to == s.to && t.stdineof == s.stdineof && Sized(t.fr)
    ensures t.toSocket == s.toSocket && t.toStdout == s.toStdout
  {
    match r
    case ReadBlocks => s
    case ReadFails => s.(status := Failed)
    case Got(bytes) =>
      if bytes == "" then s.(status := if s.stdineof then Finished else ServerQuit)
      else s.(fr := Stored(s.fr, bytes), fromSocket := s.fromSocket + bytes, sockRest := s.sockRest[|bytes|..])
  }

  function WriteStdout(s: State, w: WriteResult): (t: State)
    requires Sized(s.fr) && (w.Wrote? ==> w.n <= |Pending(s.fr)|)
    ensures t.to == s.to && t.stdineof == s.stdineof && t.toSocket == s.toSocket && SameReads(s, t)
  {
    match w
    case WriteBlocks => s
    case WriteFails => s.(status := Failed)
    case Wrote(n) => s.(fr := Drained(s.fr, n), toStdout := s.toStdout + Pending(s.fr)[..n])
  }

  function WriteSocket(s: State, w: WriteResult): (t: State)
    requires Sized(s.to) && (w.Wrote? ==> w.n <= |Pending(s.to)|)
    ensures t.fr == s.fr && t.toStdout == s.toStdout && SameReads(s, t)
  {
    match w
    case WriteBlocks => s
    case WriteFails => s.(status := Failed)
    case Wrote(n) =>
      var sent := s.toSocket + [Bytes(Pending(s.to)[..n])];
      s.(to := Drained(s.to, n),
         toSocket := if s.to.optr + n == s.to.iptr && s.stdineof then sent + [Fin] else sent)
  }

  // ---------------------------------------------------------------- one turn

  /** Each block runs when its descriptor is set, and a block that reads sets the descriptor to write to. */
  function AfterStdin(s: State, r: Round): State
    requires Sized(s.to) && ReadMay(r.stdinRead, s.stdinRest, Space(s.to))
  {
    if r.stdinReady then ReadStdin(s, r.stdinRead) else s
  }

  function AfterSocketRead(s: State, r: Round): State
    requires Sized(s.fr) && ReadMay(r.sockRead, s.sockRest, Space(s.fr))
  {
    if s.status == Running && r.sockReadable then ReadSocket(s, r.sockRead) else s
  }

  /** Whether stdout is tried: select reported it, or bytes for it were just read. */
  predicate TriesStdout(r: Round) { r.stdoutWritable || (r.sockReadable && r.sockRead.Got? && r.sockRead.bytes != "") }

  predicate TriesSocket(r: Round) { r.sockWritable || (r.stdinReady && r.stdinRead.Got? && r.stdinRead.bytes != "") }

  function AfterStdout(s: State, r: Round): State
    requires Sized(s.fr) && (r.stdoutWrite.Wrote? ==> r.stdoutWrite.n <= |Pending(s.fr)|)
  {
    if s.status == Running && TriesStdout(r) && Pending(s.fr) != "" then WriteStdout(s, r.stdoutWrite) else s
  }

  function AfterSocketWrite(s: State, r: Round): State
    requires Sized(s.to) && (r.sockWrite.Wrote? ==> r.sockWrite.n <= |Pending(s.to)|)
  {
    if s.status == Running && TriesSocket(r) && Pending(s.to) != "" then WriteSocket(s, r.sockWrite) else s
  }

  /** select reports only descriptors that it was asked about. */
  predicate Reports(a: Asked, r: Round) {
    && (r.stdinReady ==> a.stdin) && (r.sockReadable ==> a.sockRead)
    && (r.sockWritable ==> a.sockWrite) && (r.stdoutWritable ==> a.stdout)
  }

  /** The system calls keep their contracts. */
  predicate Possible(s: State, r: Round) {
    && Sized(s.to) && Sized(s.fr) && s.status == Running
    && Reports(AskedIn(s), r)
    && ReadMay(r.stdinRead, s.stdinRest, Space(s.to)) && ReadMay(r.sockRead, s.sockRest, Space(s.fr))
    && var s1 := AfterStdin(s, r);
       var s2 := AfterSocketRead(s1, r);
       && Sized(s2.fr) && (r.stdoutWrite.Wrote? ==> r.stdoutWrite.n <= |Pending(s2.fr)|)
       && Sized(s2.to) && (r.sockWrite.Wrote? ==> r.sockWrite.n <= |Pending(s2.to)|)
  }

  function Turn(s: State, r: Round): State
    requires Possible(s, r)
  {
    AfterSocketWrite(AfterStdout(AfterSocketRead(AfterStdin(s, r), r), r), r)
  }

  lemma {:induction false} SliceOfSlice(s: string, from: nat, to: nat, n: nat)
    requires from + n <= to <= |s|
    ensures s[from..to][..n] == s[from..from + n]
  {}

  /** The buffers and pointers of str_cli, moved in place. */
  class Client {
    const to: array<char>
    const fr: array<char>
    var toiptr: nat
    var tooptr: nat
    var friptr: nat
    var froptr: nat
    var stdineof: bool

    ghost predicate Shows(s: State)
      reads this, to, fr
    {
      && s.to == Buffer(to[..], toiptr, tooptr) && s.fr == Buffer(fr[..], friptr, froptr)
      && s.stdineof == stdineof
    }

    constructor ()
      ensures fresh(to) && fresh(fr) && to != fr
      ensures forall s: State | Shows(s) :: s.to.iptr == s.to.optr == s.fr.iptr == s.fr.optr == 0 && !s.stdineof
      ensures to.Length == fr.Length == MAXLINE
    {
      to := new char[MAXLINE];
      fr := new char[MAXLINE];
      toiptr, tooptr, friptr, froptr, stdineof := 0, 0, 0, 0, false;
    }

    /** The two sets that are passed to select. */
    method Ask(ghost s: State) returns (a: Asked)
      requires Shows(s)
      ensures a == AskedIn(s)
    {
      a := Asked(false, false, false, false);
      if !stdineof && toiptr < MAXLINE {
        a := a.(stdin := true);
      }
      if friptr < MAXLINE {
        a := a.(sockRead := true);
      }
      if tooptr != toiptr {
        a := a.(sockWrite := true);
      }
      if froptr != friptr {
        a := a.(stdout := true);
      }
    }

    /** The stdin block; `out` is what it sends on the socket, a FIN or nothing. */
    method OnStdin(r: Round, ghost s: State) returns (ghost t: State, status: Status, wset: bool, out: seq<Out>)
      requires Shows(s) && s.status == Running && to != fr && to.Length == fr.Length == MAXLINE
      requires Sized(s.to) && ReadMay(r.stdinRead, s.stdinRest, Space(s.to))
      modifies this, to
      ensures Shows(t) && t == AfterStdin(s, r) && status == t.status && wset == TriesSocket(r)
      ensures t.toSocket == s.toSocket + out
    {
      t, status, wset, out := AfterStdin(s, r), Running, r.sockWritable, [];
      if r.stdinReady {
        match r.stdinRead {
          case ReadBlocks =>
          case ReadFails => status := Failed;
          case Got(bytes) =>
            if bytes == "" {
              stdineof := true;
              if tooptr == toiptr {
                out := [Fin];
              }
            } else {
              StoreAt(to, toiptr, bytes);
              toiptr := toiptr + |bytes|;
              wset := true;
            }
        }
      }
    }

    method OnSocket(r: Round, ghost s: State) returns (ghost t: State, status: Status, wset: bool)
      requires Shows(s) && s.status == Running && to != fr && to.Length == fr.Length == MAXLINE
      requires Sized(s.fr) && ReadMay(r.sockRead, s.sockRest, Space(s.fr))
      modifies this, fr
      ensures Shows(t) && t == AfterSocketRead(s, r) && status == t.status && wset == TriesStdout(r)
    {
      t, status, wset := AfterSocketRead(s, r), Running, r.stdoutWritable;
      if r.sockReadable {
        match r.sockRead {
          case ReadBlocks =>
          case ReadFails => status := Failed;
          case Got(bytes) =>
            if bytes == "" {
              status := if stdineof then Finished else ServerQuit;
            } else {
              StoreAt(fr, friptr, bytes);
              friptr := friptr + |bytes|;
              wset := true;
            }
        }
      }
    }

    /** The stdout block; `out` is what write took. */
    method ToStdout(w: WriteResult, ghost s: State) returns (ghost t: State, status: Status, out: string)
      requires Shows(s) && s.status == Running && Sized(s.fr) && (w.Wrote? ==> w.n <= |Pending(s.fr)|)
      modifies this
      ensures Shows(t) && t == WriteStdout(s, w) && status == t.status
      ensures t.toStdout == s.toStdout + out
    {
      t, status, out := WriteStdout(s, w), Running, "";
      match w
      case WriteBlocks =>
      case WriteFails => status := Failed;
      case Wrote(n) =>
        out := fr[froptr..froptr + n];
        SliceOfSlice(fr[..], froptr, friptr, n);
        assert out == fr[..][froptr..froptr + n];
        froptr := froptr + n;
        if froptr == friptr {
          froptr, friptr := 0, 0;
        }
    }

    /** The socket block; `out` is what write took, and a FIN if that was the last. */
    method ToSocket(w: WriteResult, ghost s: State) returns (ghost t: State, status: Status, out: seq<Out>)
      requires Shows(s) && s.status == Running && Sized(s.to) && (w.Wrote? ==> w.n <= |Pending(s.to)|)
      modifies this
      ensures Shows(t) && t == WriteSocket(s, w) && status == t.status
      ensures t.toSocket == s.toSocket + out
    {
      t, status, out := WriteSocket(s, w), Running, [];
      match w
      case WriteBlocks =>
      case WriteFails => status := Failed;
      case Wrote(n) =>
        out := [Bytes(to[tooptr..tooptr + n])];
        SliceOfSlice(to[..], tooptr, toiptr, n);
        assert to[tooptr..tooptr + n] == to[..][tooptr..tooptr + n];
        tooptr := tooptr + n;
        if tooptr == toiptr {
          tooptr, toiptr := 0, 0;
          if stdineof {
            out := out + [Fin];
          }
        }
    }

    /** One turn of the loop, with what it writes; the ghost state records what passed through the descriptors. */
    method Iterate(r: Round, ghost s: State)
        returns (ghost t: State, status: Status, toSocket: seq<Out>, toStdout: string)
      requires Shows(s) && Possible(s, r) && to != fr
      modifies this, to, fr
      ensures Shows(t) && t == Turn(s, r) && status == t.status
      ensures t.toSocket == s.toSocket + toSocket && t.toStdout == s.toStdout + toStdout
    {
      hide ReadStdin, ReadSocket, WriteStdout, WriteSocket, TriesSocket, TriesStdout;
      var wsetSock, wsetStdout;
      t, status, wsetSock, toSocket := OnStdin(r, s);
      toStdout := "";
      if status == Running {
        t, status, wsetStdout := OnSocket(r, t);
        if status == Running && wsetStdout && friptr - froptr > 0 {
          t, status, toStdout := ToStdout(r.stdoutWrite, t);
        }
        if status == Running && wsetSock && toiptr - tooptr > 0 {
          var more;
          t, status, more := ToSocket(r.sockWrite, t);
          toSocket := toSocket + more;
        }
      }
    }
  }

  /** The bytes that a read leaves in the buffer. */
  method StoreAt(a: array<char>, at: nat, bytes: string)
    requires at + |bytes| <= a.Length
    modifies a
    ensures a[..] == old(a[..at]) + bytes + old(a[at + |bytes|..])
  {
    forall k | 0 <= k < |bytes| {
      a[at + k] := bytes[k];
    }
  }

  // ---------------------------------------------------------------- invariant

  /** The bytes among what went out. */
  function Sent(out: seq<Out>): string {
    if out == [] then ""
    else Sent(out[..|out| - 1]) + match out[|out| - 1] case Bytes(b) => b case Fin => ""
  }

  ghost predicate Shut(out: seq<Out>) { out != [] && out[|out| - 1] == Fin }

  ghost predicate NoFin(out: seq<Out>) { forall k | 0 <= k < |out| :: out[k] != Fin }

  /** No FIN, or one, with nothing after it. */
  ghost predicate FinLast(out: seq<Out>) { if Shut(out) then NoFin(out[..|out| - 1]) else NoFin(out) }

  /** Emptied buffers have started over. */
  ghost predicate BufferOk(b: Buffer) { Sized(b) && (b.optr == b.iptr ==> b.iptr == 0) }

  ghost predicate ToInv(s: State) {
    && BufferOk(s.to)
    && s.fromStdin == Sent(s.toSocket) + Pending(s.to)
    && FinLast(s.toSocket)
    && (Shut(s.toSocket) <==> s.stdineof && s.to.optr == s.to.iptr)
    && (s.stdineof ==> s.stdinRest == "")
  }

  ghost predicate FrInv(s: State) {
    && BufferOk(s.fr)
    && s.fromSocket == s.toStdout + Pending(s.fr)
    && (s.status == Finished || s.status == ServerQuit ==> s.sockRest == "")
  }

  ghost predicate Inv(s: State) { ToInv(s) && FrInv(s) && (s.status == Finished ==> s.stdineof) }

  lemma {:induction false} StoredPending(b: Buffer, bytes: string)
    requires BufferOk(b) && |bytes| <= Space(b) && bytes != ""
    ensures BufferOk(Stored(b, bytes)) && Pending(Stored(b, bytes)) == Pending(b) + bytes
    ensures Stored(b, bytes).optr != Stored(b, bytes).iptr
  {}

  lemma {:induction false} DrainedPending(b: Buffer, n: nat)
    requires BufferOk(b) && n <= |Pending(b)|
    ensures BufferOk(Drained(b, n)) && Pending(b)[..n] + Pending(Drained(b, n)) == Pending(b)
  {}

  lemma {:induction false} PendingNonempty(b: Buffer)
    requires Sized(b)
    ensures |Pending(b)| == b.iptr - b.optr
  {}

  lemma {:induction false} SentSnoc(out: seq<Out>, o: Out)
    ensures Sent(out + [o]) == Sent(out) + match o case Bytes(b) => b case Fin => ""
  {}

  lemma {:induction false} FinNow(out: seq<Out>)
    requires FinLast(out) && !Shut(out)
    ensures FinLast(out + [Fin]) && Shut(out + [Fin]) && Sent(out + [Fin]) == Sent(out)
  {
    SentSnoc(out, Fin);
    assert (out + [Fin])[..|out|] == out;
  }

  lemma {:induction false} ReadStdinInv(s: State, r: ReadResult)
    requires Inv(s) && AskedIn(s).stdin && ReadMay(r, s.stdinRest, Space(s.to)) && s.status == Running
    ensures Inv(ReadStdin(s, r))
  {
    hide Pending, Stored, Sent, FinLast, Shut;
    match r
    case Got(bytes) =>
      if bytes == "" {
        FinNow(s.toSocket);
      } else {
        StoredPending(s.to, bytes);
        assert Sent(s.toSocket) + (Pending(s.to) + bytes) == s.fromStdin + bytes;
        assert !Shut(s.toSocket);
      }
    case _ =>
  }

  lemma {:induction false} ReadSocketInv(s: State, r: ReadResult)
    requires Inv(s) && AskedIn(s).sockRead && ReadMay(r, s.sockRest, Space(s.fr)) && s.status == Running
    ensures Inv(ReadSocket(s, r))
  {
    hide Pending, Stored, Sent, FinLast, Shut;
    match r
    case Got(bytes) =>
      if bytes != "" {
        StoredPending(s.fr, bytes);
        assert s.toStdout + (Pending(s.fr) + bytes) == s.fromSocket + bytes;
      }
    case _ =>
  }

  lemma {:induction false} WriteStdoutInv(s: State, w: WriteResult)
    requires Inv(s) && s.status == Running && (w.Wrote? ==> w.n <= |Pending(s.fr)|)
    ensures Inv(WriteStdout(s, w))
  {}

  lemma {:induction false} WriteSocketInv(s: State, w: WriteResult)
    requires Inv(s) && s.status == Running && (w.Wrote? ==> w.n <= |Pending(s.to)|) && Pending(s.to) != ""
    ensures Inv(WriteSocket(s, w))
  {
    hide Pending, ToInv;
    WriteSocketAccount(s, w);
  }

  lemma {:induction false} WriteSocketAccount(s: State, w: WriteResult)
    requires ToInv(s) && s.status == Running && (w.Wrote? ==> w.n <= |Pending(s.to)|) && Pending(s.to) != ""
    ensures ToInv(WriteSocket(s, w))
  {
    hide Pending, Sent;
    if w.Wrote? {
      DrainedPending(s.to, w.n);
      PendingNonempty(s.to);
      var b := Bytes(Pending(s.to)[..w.n]);
      SentSnoc(s.toSocket, b);
      SentSnoc(s.toSocket + [b], Fin);
      assert (s.toSocket + [b] + [Fin])[..|s.toSocket| + 1] == s.toSocket + [b];
    }
  }

  lemma {:induction false} TurnInv(s: State, r: Round)
    requires Inv(s) && Possible(s, r)
    ensures Inv(Turn(s, r))
  {
    hide ReadStdin, ReadSocket, WriteStdout, WriteSocket, Sent, FinLast;
    var s1 := AfterStdin(s, r);
    if r.stdinReady {
      ReadStdinInv(s, r.stdinRead);
    }
    var s2 := AfterSocketRead(s1, r);
    if s1.status == Running && r.sockReadable {
      ReadSocketInv(s1, r.sockRead);
    }
    var s3 := AfterStdout(s2, r);
    if s2.status == Running && TriesStdout(r) && Pending(s2.fr) != "" {
      WriteStdoutInv(s2, r.stdoutWrite);
    }
    if s3.status == Running && TriesSocket(r) && Pending(s3.to) != "" {
      WriteSocketInv(s3, r.sockWrite);
    }
  }

  // ---------------------------------------------------------------- runs

  ghost predicate IsInitial(s: State) {
    && Sized(s.to) && Sized(s.fr)
    && s.to.iptr == s.to.optr == s.fr.iptr == s.fr.optr == 0 && !s.stdineof && s.status == Running
    && s.fromStdin == "" && s.toSocket == [] && s.fromSocket == "" && s.toStdout == ""
  }

  /** The states of a run, one turn apart. */
  ghost predicate IsRun(states: seq<State>, rounds: seq<Round>) {
    && |states| == |rounds| + 1 && IsInitial(states[0])
    && forall i | 0 <= i < |rounds| :: Possible(states[i], rounds[i]) && states[i + 1] == Turn(states[i], rounds[i])
  }

  lemma {:induction false} RunInv(states: seq<State>, rounds: seq<Round>, i: nat)
    requires IsRun(states, rounds) && i < |states|
    ensures Inv(states[i])
  {
    if i > 0 {
      RunInv(states, rounds, i - 1);
      TurnInv(states[i - 1], rounds[i - 1]);
      assert states[i - 1 + 1] == Turn(states[i - 1], rounds[i - 1]);
    }
  }

  lemma {:induction false} Take(got: string, bytes: string, rest: string)
    requires bytes <= rest
    ensures (got + bytes) + rest[|bytes|..] == got + rest
  {}

  lemma {:induction false} ReadStdinTakes(s: State, r: ReadResult)
    requires Sized(s.to) && ReadMay(r, s.stdinRest, Space(s.to))
    ensures var t := ReadStdin(s, r);
            && t.fromStdin + t.stdinRest == s.fromStdin + s.stdinRest
            && t.fromSocket == s.fromSocket && t.sockRest == s.sockRest
  {
    if r.Got? {
      Take(s.fromStdin, r.bytes, s.stdinRest);
    }
  }

  lemma {:induction false} ReadSocketTakes(s: State, r: ReadResult)
    requires Sized(s.fr) && ReadMay(r, s.sockRest, Space(s.fr))
    ensures var t := ReadSocket(s, r);
            && t.fromSocket + t.sockRest == s.fromSocket + s.sockRest
            && t.fromStdin == s.fromStdin && t.stdinRest == s.stdinRest
  {
    if r.Got? {
      Take(s.fromSocket, r.bytes, s.sockRest);
    }
  }

  /** A turn takes what it reads from what was to come. */
  lemma {:induction false} TurnTakes(s: State, r: Round)
    requires Possible(s, r)
    ensures var t := Turn(s, r);
            t.fromStdin + t.stdinRest == s.fromStdin + s.stdinRest && t.fromSocket + t.sockRest == s.fromSocket + s.sockRest
  {
    hide ReadStdin, ReadSocket, WriteStdout, WriteSocket, Pending;
    ReadStdinTakes(s, r.stdinRead);
    ReadSocketTakes(AfterStdin(s, r), r.sockRead);
  }

  lemma {:induction false} AllTaken(states: seq<State>, rounds: seq<Round>, i: nat)
    requires IsRun(states, rounds) && i < |states|
    ensures states[i].fromStdin + states[i].stdinRest == states[0].stdinRest
    ensures states[i].fromSocket + states[i].sockRest == states[0].sockRest
  {
    if i == 0 {
      assert "" + states[0].stdinRest == states[0].stdinRest && "" + states[0].sockRest == states[0].sockRest;
    } else {
      AllTaken(states, rounds, i - 1);
      TurnTakes(states[i - 1], rounds[i - 1]);
      assert states[i - 1 + 1] == Turn(states[i - 1], rounds[i - 1]);
    }
  }

  /**
   * After any number of turns, what has been written, what is buffered and what has not been read yet are, in this
   * order, all that stdin delivers, and all that the server sends.
   */
  lemma {:induction false} NothingLostOrInvented(states: seq<State>, rounds: seq<Round>, i: nat)
    requires IsRun(states, rounds) && i < |states|
    ensures Sized(states[i].to) && Sized(states[i].fr)
    ensures states[0].stdinRest == Sent(states[i].toSocket) + Pending(states[i].to) + states[i].stdinRest
    ensures states[0].sockRest == states[i].toStdout + Pending(states[i].fr) + states[i].sockRest
  {
    RunInv(states, rounds, i);
    AllTaken(states, rounds, i);
  }

  /** A return of 0 is never the answer to a read without room: stdin, or the server, has delivered all it has. */
  lemma {:induction false} EndOfFileIsReal(states: seq<State>, rounds: seq<Round>, i: nat)
    requires IsRun(states, rounds) && i < |states|
    ensures states[i].stdineof ==> states[i].fromStdin == states[0].stdinRest
    ensures states[i].status == Finished || states[i].status == ServerQuit ==> states[i].fromSocket == states[0].sockRest
  {
    RunInv(states, rounds, i);
    AllTaken(states, rounds, i);
  }

  /** What a read delivers; nothing if it fails, or would block. */
  function Delivered(ready: bool, r: ReadResult): string { if ready && r.Got? then r.bytes else "" }

  /** The turn is not cut short: no call on it fails, and the server has not ended. */
  predicate Undisturbed(r: Round) {
    && !(r.stdinReady && r.stdinRead.ReadFails?)
    && !(r.sockReadable && (r.sockRead.ReadFails? || r.sockRead == Got("")))
    && !r.stdoutWrite.WriteFails? && !r.sockWrite.WriteFails?
  }

  lemma {:induction false} StdoutMoves(s: State, w: WriteResult)
    requires Inv(s) && s.status == Running && !w.WriteFails? && (w.Wrote? ==> w.n <= |Pending(s.fr)|)
    ensures var t, n := WriteStdout(s, w), if w.Wrote? then w.n else 0;
            && t.toStdout == s.toStdout + Pending(s.fr)[..n] && BufferOk(t.fr) && Pending(t.fr) == Pending(s.fr)[n..]
            && t.status == Running
  {
    if w.Wrote? {
      DrainedPending(s.fr, w.n);
      LeavesRest(Pending(s.fr), w.n, Pending(Drained(s.fr, w.n)));
    }
  }

  lemma {:induction false} LeavesRest(p: string, n: nat, q: string)
    requires n <= |p| && p[..n] + q == p
    ensures q == p[n..]
  {
    assert q == (p[..n] + q)[n..];
  }

  lemma {:induction false} SocketMoves(s: State, w: WriteResult)
    requires Inv(s) && s.status == Running && !w.WriteFails? && (w.Wrote? ==> w.n <= |Pending(s.to)|)
    ensures var t, n := WriteSocket(s, w), if w.Wrote? then w.n else 0;
            && Sent(t.toSocket) == Sent(s.toSocket) + Pending(s.to)[..n] && BufferOk(t.to) && Pending(t.to) == Pending(s.to)[n..]
            && t.status == Running
  {
    hide Pending, Sent, Drained;
    if w.Wrote? {
      DrainedPending(s.to, w.n);
      LeavesRest(Pending(s.to), w.n, Pending(Drained(s.to, w.n)));
      var b := Bytes(Pending(s.to)[..w.n]);
      SentSnoc(s.toSocket, b);
      SentSnoc(s.toSocket + [b], Fin);
      assert Sent(s.toSocket) + Pending(s.to)[..w.n] + "" == Sent(s.toSocket) + Pending(s.to)[..w.n];
    }
  }

  /**
   * Each output that select reports, or that there is new input for, takes from the front of what is pending, the new
   * input last, exactly as many bytes as write says; another output takes none.
   */
  ghost predicate Moves(s: State, r: Round, t: State)
    requires Inv(s) && Inv(t)
  {
    var in1, in2 := Delivered(r.stdinReady, r.stdinRead), Delivered(r.sockReadable, r.sockRead);
    var p, q := Pending(s.fr) + in2, Pending(s.to) + in1;
    var n := if (r.stdoutWritable || in2 != "") && p != "" && r.stdoutWrite.Wrote? then r.stdoutWrite.n else 0;
    var m := if (r.sockWritable || in1 != "") && q != "" && r.sockWrite.Wrote? then r.sockWrite.n else 0;
    && t.status == Running
    && n <= |p| && t.toStdout == s.toStdout + p[..n] && Pending(t.fr) == p[n..]
    && m <= |q| && Sent(t.toSocket) == Sent(s.toSocket) + q[..m] && Pending(t.to) == q[m..]
  }

  /** What a turn that is not cut short moves. */
  lemma {:induction false} TurnMoves(s: State, r: Round)
    requires Inv(s) && Possible(s, r) && Undisturbed(r)
    ensures Inv(Turn(s, r)) && Moves(s, r, Turn(s, r))
  {
    hide WriteStdout, WriteSocket, ReadStdin, ReadSocket, Stored, Pending, Sent, FinLast, Shut, Drained;
    TurnInv(s, r);
    ReadsAdd(s, r);
    var s2 := AfterSocketRead(AfterStdin(s, r), r);
    if TriesStdout(r) && Pending(s2.fr) != "" {
      StdoutMoves(s2, r.stdoutWrite);
    }
    var s3 := AfterStdout(s2, r);
    assert Inv(s3) by { WriteStdoutInvIf(s2, r); }
    if TriesSocket(r) && Pending(s3.to) != "" {
      SocketMoves(s3, r.sockWrite);
    }
    NoBytes(s.toStdout, Pending(s2.fr));
    NoBytes(Sent(s.toSocket), Pending(s2.to));
  }

  lemma {:induction false} NoBytes(x: string, p: string)
    ensures x + p[..0] == x && p[0..] == p
  {}

  lemma {:induction false} WriteStdoutInvIf(s: State, r: Round)
    requires Inv(s) && s.status == Running && (r.stdoutWrite.Wrote? ==> r.stdoutWrite.n <= |Pending(s.fr)|)
    ensures Inv(AfterStdout(s, r))
  {
    hide WriteStdout, Pending, Sent, FinLast, Shut;
    if TriesStdout(r) && Pending(s.fr) != "" {
      WriteStdoutInv(s, r.stdoutWrite);
    }
  }

  /** After the two reads: what is pending. */
  lemma {:induction false} ReadsAdd(s: State, r: Round)
    requires Inv(s) && Possible(s, r) && Undisturbed(r)
    ensures var t := AfterSocketRead(AfterStdin(s, r), r);
            && Inv(t) && t.status == Running && t.toStdout == s.toStdout && Sent(t.toSocket) == Sent(s.toSocket)
            && Pending(t.fr) == Pending(s.fr) + Delivered(r.sockReadable, r.sockRead)
            && Pending(t.to) == Pending(s.to) + Delivered(r.stdinReady, r.stdinRead)
  {
    hide Stored, Pending, Sent, FinLast, Shut;
    var s1 := AfterStdin(s, r);
    NoMore(Pending(s.to));
    NoMore(Pending(s.fr));
    SentSnoc(s.toSocket, Fin);
    assert Sent(s.toSocket) + "" == Sent(s.toSocket);
    if r.stdinReady {
      ReadStdinInv(s, r.stdinRead);
      if r.stdinRead.Got? && r.stdinRead.bytes != "" {
        StoredPending(s.to, r.stdinRead.bytes);
      }
    }
    if r.sockReadable {
      ReadSocketInv(s1, r.sockRead);
      if r.sockRead.Got? && r.sockRead.bytes != "" {
        StoredPending(s.fr, r.sockRead.bytes);
      }
    }
  }

  lemma {:induction false} NoMore(p: string)
    ensures p + "" == p
  {}

  /** select is asked about the inputs while they may deliver and there is room, about the outputs while bytes wait. */
  lemma {:induction false} AskedWhen(states: seq<State>, rounds: seq<Round>, i: nat)
    requires IsRun(states, rounds) && i < |states|
    ensures Sized(states[i].to) && Sized(states[i].fr)
    ensures var s, a := states[i], AskedIn(states[i]);
            && (a.stdin <==> !s.stdineof && s.to.iptr < 4096) && (a.sockRead <==> s.fr.iptr < 4096)
            && (a.sockWrite <==> Pending(s.to) != "") && (a.stdout <==> Pending(s.fr) != "")
  {
    RunInv(states, rounds, i);
    PendingNonempty(states[i].to);
    PendingNonempty(states[i].fr);
  }

  /** One FIN at most, nothing after it; it is out exactly when stdin's end is known and all of stdin has been written. */
  lemma {:induction false} FinExactlyWhenDone(states: seq<State>, rounds: seq<Round>, i: nat)
    requires IsRun(states, rounds) && i < |states|
    ensures FinLast(states[i].toSocket)
    ensures Shut(states[i].toSocket) <==> states[i].stdineof && Sent(states[i].toSocket) == states[0].stdinRest
  {
    RunInv(states, rounds, i);
    EndOfFileIsReal(states, rounds, i);
    var s := states[i];
    assert |s.fromStdin| == |Sent(s.toSocket)| + |Pending(s.to)|;
  }

  /** select always has a descriptor to wait for. */
  lemma {:induction false} AlwaysWaitsForSomething(states: seq<State>, rounds: seq<Round>, i: nat)
    requires IsRun(states, rounds) && i < |states|
    ensures AskedIn(states[i]).sockRead || AskedIn(states[i]).stdout
  {
    RunInv(states, rounds, i);
  }

  /**
   * At a normal return stdout has all that the server sent exactly when the buffer for it is empty, and otherwise a
   * prefix; and likewise the server and stdin.
   */
  lemma {:induction false} ReturnDelivers(states: seq<State>, rounds: seq<Round>, i: nat)
    requires IsRun(states, rounds) && i < |states| && states[i].status == Finished
    ensures var s := states[i];
            && s.toStdout <= states[0].sockRest
            && (s.toStdout == states[0].sockRest <==> s.fr.optr == s.fr.iptr)
            && Sent(s.toSocket) <= states[0].stdinRest
            && (Sent(s.toSocket) == states[0].stdinRest <==> s.to.optr == s.to.iptr)
  {
    RunInv(states, rounds, i);
    EndOfFileIsReal(states, rounds, i);
  }

  /** And it need not be: the loop returns at the server's end of file whatever is left in the buffer. */
  lemma {:induction false} ReturnMayDropBytes(start: State)
    returns (states: seq<State>, rounds: seq<Round>)
    requires IsInitial(start) && start.stdinRest == "" && 0 < |start.sockRest| < MAXLINE
    ensures IsRun(states, rounds) && states[0] == start
    ensures states[|states| - 1].status == Finished && states[|states| - 1].toStdout == ""
  {
    var quiet := Round(false, false, false, false, ReadBlocks, ReadBlocks, WriteBlocks, WriteBlocks);
    var a := quiet.(sockReadable := true, sockRead := Got(start.sockRest));
    var b := quiet.(stdinReady := true, stdinRead := Got(""));
    var c := quiet.(sockReadable := true, sockRead := Got(""));
    var s1 := Turn(start, a);
    var s2 := Turn(s1, b);
    var s3 := Turn(s2, c);
    states, rounds := [start, s1, s2, s3], [a, b, c];
  }
}
