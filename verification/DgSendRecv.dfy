/** rtt/dg_send_recv.c: the client's side, cut at the points where it blocks or is interrupted. */
module DgSendRecv {
  import opened Rtt

  /** What goes over the wire: the header's two words, then the caller's bytes. */
  datatype Datagram = Datagram(seq_: uint32, ts: uint32, body: seq<nat>)

  /** Where a call stands: before Sendmsg, in the receive loop, or past it with the alarm still on. */
  datatype Phase = Idle | Sending | Waiting | Matched(reply: Datagram)

  /** The function's statics and arguments. */
  datatype Client = Client(inited: bool, seq_: uint32, rtt: Info, phase: Phase, out: seq<nat>, inbytes: nat)

  /** Entry, up to `sendagain`. */
  function Begin(c: Client, out: seq<nat>, inbytes: nat, now: nat): Client {
    var rtt := if c.inited then c.rtt else Init(c.rtt, now);
    Client(true, (c.seq_ + 1) % WRAP, NewPack(rtt), Sending, out, inbytes)
  }

  /** The datagram that a transmission at `now` sends. */
  function Outgoing(c: Client, now: nat): Datagram { Datagram(c.seq_, Ts(c.rtt, now), c.out) }

  /** SIGALRM: retransmit, or give up and forget the estimators. */
  function Alarm(c: Client): Client {
    var (rtt, giveUp) := Timeout(c.rtt);
    if giveUp then c.(rtt := rtt, inited := false, phase := Idle) else c.(rtt := rtt, phase := Sending)
  }

  /** One pass of the receive loop: only a reply with the current sequence number ends it. */
  function Receive(c: Client, d: Datagram): Client {
    if d.seq_ == c.seq_ then c.(phase := Matched(d)) else c
  }

  /** The round trip handed to rtt_stop: an unsigned 32-bit difference. */
  function Sample(c: Client, d: Datagram, now: nat): uint32 { (Ts(c.rtt, now) - d.ts) % WRAP }

  function Finish(c: Client, d: Datagram, now: nat): Client {
    c.(rtt := Stop(c.rtt, Sample(c, d, now)), phase := Idle)
  }

  /** What recvmsg scatters into a buffer of `n` bytes. */
  function Truncated(body: seq<nat>, n: nat): (t: seq<nat>)
    ensures t <= body && |t| == if |body| <= n then |body| else n
  {
    if |body| <= n then body else body[..n]
  }

  /** The statics of dg_send_recv, updated in place. */
  class Endpoint {
    const rttinfo: RttInfo
    var rttinit: bool
    var sendSeq: uint32
    var phase: Phase
    var out: seq<nat>
    var inbytes: nat

    function View(): Client
      reads this, rttinfo
    {
      Client(rttinit, sendSeq, rttinfo.View(), phase, out, inbytes)
    }

    constructor ()
      ensures fresh(rttinfo)
      ensures View() == Client(false, 0, Info(0.0, 0.0, 0.0, 0.0, 0, 0), Idle, [], 0)
    {
      rttinfo := new RttInfo();
      rttinit, sendSeq, phase, out, inbytes := false, 0, Idle, [], 0;
    }

    method Enter(outbuff: seq<nat>, inlen: nat, now: nat)
      requires phase == Idle
      modifies this, rttinfo
      ensures View() == Begin(old(View()), outbuff, inlen, now)
    {
      if !rttinit {
        rttinfo.Initialize(now);
        rttinit := true;
      }
      sendSeq := (sendSeq + 1) % WRAP;
      out, inbytes := outbuff, inlen;
      rttinfo.NewPacket();
      phase := Sending;
    }

    method SendAgain(now: nat) returns (sent: Datagram, seconds: int)
      requires phase == Sending
      modifies this
      ensures View() == old(View()).(phase := Waiting)
      ensures sent == Outgoing(old(View()), now) && seconds == Start(old(View()).rtt)
    {
      sent := Datagram(sendSeq, Ts(rttinfo.View(), now), out);
      seconds := Start(rttinfo.View());
      phase := Waiting;
    }

    /** sig_alrm, back through sigsetjmp; `gaveUp` is the ETIMEDOUT return. */
    method OnAlarm() returns (gaveUp: bool)
      requires phase.Waiting? || phase.Matched?
      modifies this, rttinfo
      ensures View() == Alarm(old(View()))
      ensures gaveUp == (phase == Idle)
    {
      gaveUp := rttinfo.TimedOut();
      if gaveUp {
        rttinit := false;
        phase := Idle;
      } else {
        phase := Sending;
      }
    }

    method OnDatagram(recv: Datagram)
      requires phase == Waiting
      modifies this
      ensures View() == Receive(old(View()), recv)
    {
      if recv.seq_ == sendSeq {
        phase := Matched(recv);
      }
    }

    method Return(now: nat) returns (inbuff: seq<nat>)
      requires phase.Matched?
      modifies this, rttinfo
      ensures View() == Finish(old(View()), old(phase).reply, now)
      ensures inbuff == Truncated(old(phase).reply.body, inbytes)
    {
      var d := phase.reply;
      rttinfo.StopTimer((Ts(rttinfo.View(), now) - d.ts) % WRAP);
      phase := Idle;
      inbuff := Truncated(d.body, inbytes);
    }
  }
}
