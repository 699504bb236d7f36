/** A client, an echo server and a network that loses, duplicates, delays and reorders. */
module RequestReply {
  import opened Rtt
  import opened DgSendRecv

  const MAXLINE := 4096

  /** dg_echo: the server reads at most MAXLINE bytes, eight of them header, and sends them back. */
  function Echo(d: Datagram): Datagram { d.(body := Truncated(d.body, MAXLINE - 8)) }

  /** One transmission: by which call, and when. */
  datatype Tx = Tx(call: nat, time: nat, wire: Datagram)

  /** The arguments of a call. */
  datatype Ask = Ask(out: seq<nat>, inbytes: nat)

  /** A call that returned: what it delivered, the round trip it measured, and the reply it took. */
  datatype Outcome = Outcome(call: nat, delivered: seq<nat>, sample: uint32, when: nat, source: Datagram)

  /**
   * The whole system. Datagrams stay in `requests` and `replies` until they are lost, so each may arrive
   * any number of times, in any order, as late as one likes. The last fields only record the run; `gaveUp` is the
   * number of calls that had returned when one last gave up.
   */
  datatype System = System(
    client: Client, now: nat, requests: set<Datagram>, replies: set<Datagram>,
    asked: seq<Ask>, txs: seq<Tx>, alarms: seq<int>, firstRto: real, outcomes: seq<Outcome>, gaveUp: nat)

  datatype Step =
    | Call(out: seq<nat>, inbytes: nat)
    | Send
    | AlarmGoesOff
    | Serve(request: Datagram)
    | Arrive(reply: Datagram)
    | ArriveShort
    | Return
    | LoseRequest(request: Datagram)
    | LoseReply(reply: Datagram)
    | Tick(micros: nat)

  predicate Enabled(s: System, a: Step) {
    match a
    case Call(_, _) => s.client.phase == Idle
    case Send => s.client.phase == Sending
    case AlarmGoesOff => s.client.phase.Waiting? || s.client.phase.Matched?
    case Serve(r) => r in s.requests
    case Arrive(d) => s.client.phase == Waiting && d in s.replies
    case ArriveShort => s.client.phase == Waiting
    case Return => s.client.phase.Matched?
    case LoseRequest(_) => true
    case LoseReply(_) => true
    case Tick(_) => true
  }

  function Next(s: System, a: Step): System
    requires Enabled(s, a)
  {
    match a
    case Call(out, inbytes) =>
      var c := Begin(s.client, out, inbytes, s.now);
      s.(client := c, asked := s.asked + [Ask(out, inbytes)], alarms := [], firstRto := c.rtt.rto)
    case Send =>
      var d := Outgoing(s.client, s.now);
      s.(client := s.client.(phase := Waiting), requests := s.requests + {d},
         txs := s.txs + [Tx(|s.asked|, s.now, d)], alarms := s.alarms + [Start(s.client.rtt)])
    case AlarmGoesOff =>
      var c := Alarm(s.client);
      s.(client := c, gaveUp := if c.phase == Idle then |s.outcomes| else s.gaveUp)
    case Serve(r) => s.(replies := s.replies + {Echo(r)})
    case Arrive(d) => s.(client := Receive(s.client, d))
    case ArriveShort => s
    case Return =>
      var c, d := s.client, s.client.phase.reply;
      var ms := Sample(c, d, s.now);
      s.(client := Finish(c, d, s.now),
         outcomes := s.outcomes + [Outcome(|s.asked|, Truncated(d.body, c.inbytes), ms, s.now, d)])
    case LoseRequest(r) => s.(requests := s.requests - {r})
    case LoseReply(d) => s.(replies := s.replies - {d})
    case Tick(t) => s.(now := s.now + t)
  }

  function Start0(rtt: Info): System {
    System(Client(false, 0, rtt, Idle, [], 0), 0, {}, {}, [], [], [], 0.0, [], 0)
  }

  /** A run is a sequence of steps, each enabled where it is taken. */
  ghost predicate IsRun(s: System, run: seq<Step>)
    decreases |run|, 0
  {
    run == [] || (IsRun(s, run[..|run| - 1]) && Enabled(After(s, run[..|run| - 1]), run[|run| - 1]))
  }

  ghost function After(s: System, run: seq<Step>): System
    requires IsRun(s, run)
    decreases |run|, 1
  {
    if run == [] then s else Next(After(s, run[..|run| - 1]), run[|run| - 1])
  }

  // ---------------------------------------------------------------- invariant

  /** Everything in the network goes back to a transmission, made under the sequence number of its call. */
  ghost predicate NetInv(s: System) {
    && s.client.seq_ == |s.asked| % WRAP
    && (forall i | 0 <= i < |s.txs| :: 1 <= s.txs[i].call <= |s.asked| && s.txs[i].time <= s.now)
    && (forall i | 0 <= i < |s.txs| :: s.txs[i].wire.seq_ == s.txs[i].call % WRAP)
    && (forall r | r in s.requests :: exists i :: 0 <= i < |s.txs| && s.txs[i].wire == r)
    && (forall d | d in s.replies :: exists i :: 0 <= i < |s.txs| && Echo(s.txs[i].wire) == d)
  }

  /** The transmissions of the current call carry its bytes and timestamps of its clock. */
  ghost predicate CallInv(s: System) {
    && (s.client.phase != Idle ==>
          && |s.asked| > 0 && s.asked[|s.asked| - 1] == Ask(s.client.out, s.client.inbytes)
          && forall i | 0 <= i < |s.txs| && s.txs[i].call == |s.asked| ::
               s.txs[i].wire.body == s.client.out && s.txs[i].wire.ts == Ts(s.client.rtt, s.txs[i].time))
    && (s.client.phase.Matched? ==>
          && s.client.phase.reply.seq_ == s.client.seq_
          && exists i :: 0 <= i < |s.txs| && Echo(s.txs[i].wire) == s.client.phase.reply)
  }

  function SamplesOf(os: seq<Outcome>): seq<uint32> {
    if os == [] then [] else SamplesOf(os[..|os| - 1]) + [os[|os| - 1].sample]
  }

  /** The round trips of the calls that have returned since a call last gave up. */
  function SamplesSince(s: System): seq<uint32>
    requires s.gaveUp <= |s.outcomes|
  {
    SamplesOf(s.outcomes[s.gaveUp..])
  }

  /** The estimators are those of these samples, and so is the first timeout of a call in progress. */
  ghost predicate EstimateInv(s: System) {
    && s.gaveUp <= |s.outcomes|
    && var c, e := s.client, Smoothed(SamplesSince(s));
       && (c.inited ==> Estimate(c.rtt.srtt, c.rtt.rttvar) == e)
       && (!c.inited ==> s.gaveUp == |s.outcomes|)
       && (c.inited && c.phase == Idle ==> c.rtt.rto == FirstTimeout(e))
       && (c.phase != Idle ==> c.inited && s.firstRto == FirstTimeout(e))
  }

  /** Timers. */
  ghost predicate TimerInv(s: System) {
    var c := s.client;
    && (|s.asked| > 0 ==> RXT_MIN <= s.firstRto <= RXT_MAX)
    && (c.phase != Idle ==>
          && |s.asked| > 0
          && c.rtt.nrexmt <= MAX_REXMT
          && c.rtt.rto == s.firstRto * Pow2(c.rtt.nrexmt) as real
          && |s.alarms| == c.rtt.nrexmt + if c.phase == Sending then 0 else 1)
    && |s.alarms| <= MAX_REXMT + 1
    && forall k | 0 <= k < |s.alarms| :: s.alarms[k] == Timer(s.firstRto, k)
  }

  /** What a returned call delivered and measured is accounted for by a transmission with its number modulo 2^32. */
  ghost predicate OutcomeInv(s: System, o: Outcome) {
    && 1 <= o.call <= |s.asked|
    && exists i :: 0 <= i < |s.txs| && FromTx(o, s.txs[i], s.asked[o.call - 1])
  }

  ghost predicate FromTx(o: Outcome, t: Tx, ask: Ask) {
    && o.source == Echo(t.wire)
    && 1 <= t.call <= o.call
    && t.call % WRAP == o.call % WRAP
    && (t.call == o.call ==> OwnReply(o, t, ask))
  }

  function Least(x: nat, y: nat, z: nat): nat {
    if x <= y && x <= z then x else if y <= z then y else z
  }

  /** The call's own bytes came back, as many as fit, and the sample is the time since the transmission whose reply this is. */
  ghost predicate OwnReply(o: Outcome, t: Tx, ask: Ask) {
    && t.call == o.call && o.source == Echo(t.wire)
    && o.delivered <= ask.out && |o.delivered| == Least(|ask.out|, 4088, ask.inbytes)
    && t.time <= o.when
    && o.sample == (o.when / 1000 - t.time / 1000) % WRAP
  }

  /** Calls return in order, each once at most. */
  ghost predicate OrderInv(s: System) {
    && (forall j, k | 0 <= j < k < |s.outcomes| :: s.outcomes[j].call < s.outcomes[k].call)
    && forall k | 0 <= k < |s.outcomes| :: s.outcomes[k].call <= |s.asked| - if s.client.phase == Idle then 0 else 1
  }

  ghost predicate Inv(s: System) {
    && NetInv(s) && CallInv(s) && EstimateInv(s) && TimerInv(s) && OrderInv(s)
    && forall k | 0 <= k < |s.outcomes| :: OutcomeInv(s, s.outcomes[k])
  }

  lemma {:induction false} SameSource(s: System, t: System)
    requires s.txs <= t.txs && s.asked <= t.asked && s.outcomes == t.outcomes
    requires forall k | 0 <= k < |s.outcomes| :: OutcomeInv(s, s.outcomes[k])
    ensures forall k | 0 <= k < |t.outcomes| :: OutcomeInv(t, t.outcomes[k])
  {}

  lemma {:induction false} NetStep(s: System, a: Step)
    requires NetInv(s) && CallInv(s) && Enabled(s, a)
    ensures NetInv(Next(s, a))
  {
    hide Ts, Stop, Init, Truncated, Larger, Timeout, Echo;
    NetOrigins(s, a);
    var t := Next(s, a);
    forall i | 0 <= i < |t.txs|
      ensures 1 <= t.txs[i].call <= |t.asked| && t.txs[i].time <= t.now && t.txs[i].wire.seq_ == t.txs[i].call % WRAP
    {
      if i < |s.txs| {
        assert t.txs[i] == s.txs[i];
      }
    }
  }

  /** Nothing is in the network that does not go back to a transmission. */
  lemma {:induction false} NetOrigins(s: System, a: Step)
    requires NetInv(s) && Enabled(s, a)
    ensures var t := Next(s, a);
            && (forall r | r in t.requests :: exists i :: 0 <= i < |t.txs| && t.txs[i].wire == r)
            && (forall d | d in t.replies :: exists i :: 0 <= i < |t.txs| && Echo(t.txs[i].wire) == d)
  {
    hide Ts, Stop, Init, Truncated, Larger, Timeout, Echo;
    var t := Next(s, a);
    assert s.txs <= t.txs;
    forall r | r in t.requests ensures exists i :: 0 <= i < |t.txs| && t.txs[i].wire == r {
      if r in s.requests {
        var i :| 0 <= i < |s.txs| && s.txs[i].wire == r;
        assert t.txs[i].wire == r;
      } else {
        assert t.txs[|s.txs|].wire == r;
      }
    }
    forall d | d in t.replies ensures exists i :: 0 <= i < |t.txs| && Echo(t.txs[i].wire) == d {
      if d in s.replies {
        var i :| 0 <= i < |s.txs| && Echo(s.txs[i].wire) == d;
        assert t.txs[i] == s.txs[i];
      } else {
        var i :| 0 <= i < |s.txs| && s.txs[i].wire == a.request;
        assert t.txs[i] == s.txs[i];
      }
    }
  }

  lemma {:induction false} CallStep(s: System, a: Step)
    requires NetInv(s) && CallInv(s) && Enabled(s, a)
    ensures CallInv(Next(s, a))
  {
    var t := Next(s, a);
    match a
    case Arrive(d) =>
      assert exists i :: 0 <= i < |s.txs| && Echo(s.txs[i].wire) == d;
    case _ =>
  }

  lemma {:induction false} SamplesSnoc(os: seq<Outcome>, from: nat, o: Outcome)
    requires from <= |os|
    ensures SamplesOf((os + [o])[from..]) == SamplesOf(os[from..]) + [o.sample]
  {
    assert (os + [o])[from..] == os[from..] + [o];
    assert (os[from..] + [o])[..|os[from..]|] == os[from..];
  }

  lemma {:induction false} SmoothedSnoc(samples: seq<uint32>, ms: uint32)
    ensures var e, r := Smoothed(samples), ms as real / 1000.0;
            Smoothed(samples + [ms]) ==
              Estimate(7.0 / 8.0 * e.srtt + 1.0 / 8.0 * r, 3.0 / 4.0 * e.rttvar + 1.0 / 4.0 * Abs(e.srtt - r))
  {
    assert (samples + [ms])[..|samples|] == samples;
  }

  lemma {:induction false} NoSamples(os: seq<Outcome>)
    ensures SamplesOf(os[|os|..]) == [] && Smoothed([]) == Estimate(0.0, 0.75) && FirstTimeout(Smoothed([])) == 3.0
  {}

  lemma {:induction false} EstimateStep(s: System, a: Step)
    requires EstimateInv(s) && Enabled(s, a)
    ensures EstimateInv(Next(s, a))
  {
    hide Ts, Stop, Echo, Truncated, SamplesOf, Smoothed, Init, Abs;
    NoSamples(s.outcomes);
    match a
    case Call(_, _) =>
      InitValues(s.client.rtt, s.now);
    case Return =>
      var d := s.client.phase.reply;
      var ms := Sample(s.client, d, s.now);
      SamplesSnoc(s.outcomes, s.gaveUp, Next(s, a).outcomes[|s.outcomes|]);
      SmoothedSnoc(SamplesSince(s), ms);
      StopFollowsRfc6298(s.client.rtt, ms);
    case _ =>
  }

  lemma {:induction false} TimerStep(s: System, a: Step)
    requires EstimateInv(s) && TimerInv(s) && Enabled(s, a)
    ensures TimerInv(Next(s, a))
  {
    hide Ts, Stop, Echo, Truncated, Larger, RtoCalc, Smoothed, SamplesOf, Init;
    match a
    case Call(_, _) =>
      InitValues(s.client.rtt, s.now);
      assert Pow2(0) == 1;
    case AlarmGoesOff =>
      assert Pow2(s.client.rtt.nrexmt + 1) == 2 * Pow2(s.client.rtt.nrexmt);
    case _ =>
  }

  /** The reply that ends a call comes from a transmission whose call has the same number modulo 2^32. */
  lemma {:induction false} ReturnStep(s: System)
    requires NetInv(s) && CallInv(s) && TimerInv(s) && s.client.phase.Matched?
    ensures var t := Next(s, Step.Return);
            OutcomeInv(t, t.outcomes[|s.outcomes|])
  {
    hide Ts, Stop, Bounded, Timer, Larger, Timeout, Init, TimerInv, Truncated;
    var c, d := s.client, s.client.phase.reply;
    var i :| 0 <= i < |s.txs| && Echo(s.txs[i].wire) == d;
    var tx := s.txs[i];
    if tx.call == |s.asked| {
      TsDifference(c.rtt, tx.time, s.now);
    }
    var t := Next(s, Step.Return);
    assert FromTx(t.outcomes[|s.outcomes|], t.txs[i], t.asked[|s.asked| - 1]);
  }

  lemma {:induction false} InvStep(s: System, a: Step)
    requires Inv(s) && Enabled(s, a)
    ensures Inv(Next(s, a))
  {
    hide NetInv, CallInv, EstimateInv, TimerInv, FromTx, Ts, Stop, Init, Timeout, Echo, Truncated;
    NetStep(s, a);
    CallStep(s, a);
    EstimateStep(s, a);
    TimerStep(s, a);
    var t := Next(s, a);
    if a == Step.Return {
      ReturnStep(s);
      var u := t.(outcomes := s.outcomes);
      SameSource(s, u);
      forall k | 0 <= k < |t.outcomes| ensures OutcomeInv(t, t.outcomes[k]) {
        if k < |s.outcomes| {
          assert t.outcomes[k] == u.outcomes[k] && OutcomeInv(u, u.outcomes[k]);
        }
      }
    } else {
      SameSource(s, t);
    }
  }

  lemma {:induction false} RunInv(rtt: Info, run: seq<Step>)
    requires IsRun(Start0(rtt), run)
    ensures Inv(After(Start0(rtt), run))
  {
    if run != [] {
      RunInv(rtt, run[..|run| - 1]);
      InvStep(After(Start0(rtt), run[..|run| - 1]), run[|run| - 1]);
    }
  }

  // ---------------------------------------------------------------- what a run guarantees

  /**
   * In every run with at most 2^32 calls, each call that returned delivered its own bytes, as cut to size by the
   * server and by its buffer, and measured the time since the very transmission whose reply it took.
   */
  lemma {:induction false} NeverStale(rtt: Info, run: seq<Step>, k: nat)
    requires IsRun(Start0(rtt), run)
    requires |After(Start0(rtt), run).asked| <= WRAP && k < |After(Start0(rtt), run).outcomes|
    ensures var s := After(Start0(rtt), run);
            var o := s.outcomes[k];
            && 1 <= o.call <= |s.asked|
            && (exists i :: 0 <= i < |s.txs| && OwnReply(o, s.txs[i], s.asked[o.call - 1]))
            && forall j | 0 <= j < k :: s.outcomes[j].call < o.call
  {
    hide IsRun, After, NetInv, CallInv, TimerInv, OwnReply, Echo;
    RunInv(rtt, run);
    var s := After(Start0(rtt), run);
    var o := s.outcomes[k];
    assert OutcomeInv(s, o);
    var i :| 0 <= i < |s.txs| && FromTx(o, s.txs[i], s.asked[o.call - 1]);
    SameNumber(s.txs[i].call, o.call);
    assert OwnReply(o, s.txs[i], s.asked[o.call - 1]);
  }

  lemma {:induction false} SameNumber(x: nat, y: nat)
    requires 1 <= x <= y <= WRAP && x % WRAP == y % WRAP
    ensures x == y
  {}

  /** A reply ends the receive loop exactly when its call has the current call's number modulo 2^32. */
  lemma {:induction false} AcceptsIffCongruent(rtt: Info, run: seq<Step>, i: nat)
    requires IsRun(Start0(rtt), run) && i < |After(Start0(rtt), run).txs|
    requires After(Start0(rtt), run).client.phase == Waiting
    ensures var s := After(Start0(rtt), run);
            Receive(s.client, Echo(s.txs[i].wire)).phase.Matched? <==> (|s.asked| - s.txs[i].call) % WRAP == 0
  {
    RunInv(rtt, run);
    var s := After(Start0(rtt), run);
    CongruentIffDifference(|s.asked|, s.txs[i].call);
  }

  lemma {:induction false} CongruentIffDifference(x: nat, y: nat)
    ensures x % WRAP == y % WRAP <==> (x - y) % WRAP == 0
  {}

  function Sum(xs: seq<int>): int { if xs == [] then 0 else Sum(xs[..|xs| - 1]) + xs[|xs| - 1] }

  /** How many transmissions a call has made. */
  function TxCount(txs: seq<Tx>, call: nat): nat {
    if txs == [] then 0 else TxCount(txs[..|txs| - 1], call) + if txs[|txs| - 1].call == call then 1 else 0
  }

  lemma {:induction false} NoTxYet(txs: seq<Tx>, call: nat)
    requires forall i | 0 <= i < |txs| :: txs[i].call < call
    ensures TxCount(txs, call) == 0
  {
    if txs != [] {
      NoTxYet(txs[..|txs| - 1], call);
    }
  }

  /** Each transmission starts one timer. */
  lemma {:induction false} ATimerEach(rtt: Info, run: seq<Step>)
    requires IsRun(Start0(rtt), run)
    ensures var s := After(Start0(rtt), run);
            TxCount(s.txs, |s.asked|) == |s.alarms|
  {
    hide Ts, Stop, Init, Timeout, Echo, Truncated, OutcomeInv, CallInv, TimerInv, EstimateInv, OrderInv;
    if run != [] {
      var before := run[..|run| - 1];
      var s, a := After(Start0(rtt), before), run[|run| - 1];
      var t := Next(s, a);
      ATimerEach(rtt, before);
      RunInv(rtt, before);
      if a.Call? {
        NoTxYet(t.txs, |t.asked|);
      } else if a.Send? {
        assert t.txs[..|s.txs|] == s.txs;
      }
    }
  }

  /**
   * In every run a call makes four transmissions at most, each with a timer. The first timeout is 2 to 60 seconds, the
   * timers are that, doubled each time and rounded; none is zero and they sum to 900 seconds at most. The alarm after
   * the fourth gives up, and no other does.
   */
  lemma {:induction false} CallTimers(rtt: Info, run: seq<Step>)
    requires IsRun(Start0(rtt), run)
    ensures var s := After(Start0(rtt), run);
            && TxCount(s.txs, |s.asked|) == |s.alarms| <= 4 && Sum(s.alarms) <= 900
            && (s.asked != [] ==> 2.0 <= s.firstRto <= 60.0)
            && (forall k | 0 <= k < |s.alarms| :: s.alarms[k] == Timer(s.firstRto, k) >= 2)
            && (Enabled(s, AlarmGoesOff) ==> (Alarm(s.client).phase == Idle <==> |s.alarms| == 4))
  {
    hide NetInv, CallInv, EstimateInv, OrderInv, OutcomeInv, Timer, TxCount;
    RunInv(rtt, run);
    AlarmsNeedCalls(rtt, run);
    ATimerEach(rtt, run);
    var s := After(Start0(rtt), run);
    var a := s.alarms;
    if a != [] {
      TimersBounded(s.firstRto);
      assert a[..1] == [a[0]] && (|a| >= 2 ==> a[..2][..1] == a[..1]);
      assert |a| >= 3 ==> a[..3][..2] == a[..2];
      assert a[..|a|] == a;
      assert Sum(a[..1]) == a[0];
      assert |a| >= 2 ==> Sum(a[..2]) == a[0] + a[1];
      assert |a| >= 3 ==> Sum(a[..3]) == a[0] + a[1] + a[2];
    }
  }

  lemma {:induction false} AlarmsNeedCalls(rtt: Info, run: seq<Step>)
    requires IsRun(Start0(rtt), run)
    ensures After(Start0(rtt), run).asked == [] ==> After(Start0(rtt), run).alarms == []
  {
    if run != [] {
      var before := run[..|run| - 1];
      AlarmsNeedCalls(rtt, before);
      RunInv(rtt, before);
    }
  }

  /**
   * The timeout adapts: in every run the estimators are the formulas of section 2.3 of RFC 6298 folded over the round
   * trips of the calls that returned since one last gave up, from 0 and 0.75, and the first timeout of a call is the
   * smoothed round trip plus four deviations, between 2 and 60 seconds.
   */
  lemma {:induction false} EstimatorsAdapt(rtt: Info, run: seq<Step>)
    requires IsRun(Start0(rtt), run)
    ensures var s := After(Start0(rtt), run);
            && s.gaveUp <= |s.outcomes|
            && var e := Smoothed(SamplesSince(s));
               && (s.client.inited ==> s.client.rtt.srtt == e.srtt && s.client.rtt.rttvar == e.rttvar)
               && (s.client.phase != Idle ==>
                     && s.client.inited
                     && s.firstRto == Clamped(e.srtt + 4.0 * e.rttvar)
                     && (s.alarms != [] ==> s.alarms[0] as real - 0.5 <= s.firstRto < s.alarms[0] as real + 0.5))
  {
    hide NetInv, CallInv, OrderInv, OutcomeInv, SamplesOf, Smoothed, Timer, Pow2;
    RunInv(rtt, run);
    var s := After(Start0(rtt), run);
    TimerRounds(s.firstRto, 0);
  }

  /** So srtt stays between 0 and the largest of these round trips, and rttvar below that or 0.75. */
  lemma {:induction false} EstimatorsBounded(rtt: Info, run: seq<Step>, most: real)
    requires IsRun(Start0(rtt), run) && After(Start0(rtt), run).gaveUp <= |After(Start0(rtt), run).outcomes|
    requires AtMost(SamplesSince(After(Start0(rtt), run)), most)
    ensures var c := After(Start0(rtt), run).client;
            c.inited ==> 0.0 <= c.rtt.srtt <= most && 0.0 <= c.rtt.rttvar <= if most < 0.75 then 0.75 else most
  {
    hide Smoothed, AtMost, SamplesOf;
    EstimatorsAdapt(rtt, run);
    SmoothedBounded(SamplesSince(After(Start0(rtt), run)), most);
  }

  // ---------------------------------------------------------------- past the wrap

  lemma {:induction false} Extend(s: System, run: seq<Step>, a: Step) returns (r: seq<Step>)
    requires IsRun(s, run) && Enabled(After(s, run), a)
    ensures r == run + [a] && IsRun(s, r) && After(s, r) == Next(After(s, run), a)
  {
    r := run + [a];
    assert r[..|r| - 1] == run;
  }

  /** A call that is answered at once. */
  lemma {:induction false} QuickCall(s: System, run: seq<Step>, out: seq<nat>) returns (r: seq<Step>, ts: uint32)
    requires IsRun(s, run) && After(s, run).client.phase == Idle
    ensures IsRun(s, r)
    ensures var t, u := After(s, run), After(s, r);
            && u.client.phase == Idle && u.asked == t.asked + [Ask(out, 8)]
            && t.replies <= u.replies
            && Echo(Datagram((t.client.seq_ + 1) % WRAP, ts, out)) in u.replies
  {
    r := Extend(s, run, Call(out, 8));
    var d := Outgoing(After(s, r).client, After(s, r).now);
    r := Extend(s, r, Send);
    r := Extend(s, r, Serve(d));
    r := Extend(s, r, Arrive(Echo(d)));
    r := Extend(s, r, Step.Return);
    ts := d.ts;
  }

  /** However many calls have been made since, the first one's reply may still be on its way. */
  lemma {:induction false} OldReply(rtt: Info, n: nat) returns (run: seq<Step>, ts: uint32)
    requires n >= 1
    ensures IsRun(Start0(rtt), run)
    ensures var s := After(Start0(rtt), run);
            s.client.phase == Idle && |s.asked| == n && Echo(Datagram(1, ts, [1])) in s.replies
  {
    if n == 1 {
      run, ts := QuickCall(Start0(rtt), [], [1]);
    } else {
      run, ts := OldReply(rtt, n - 1);
      var later;
      run, later := QuickCall(Start0(rtt), run, [2]);
    }
  }

  /** So the bound of 2^32 calls is needed: the next call can be answered by the first one's reply. */
  lemma {:induction false} StaleAfterWrap(rtt: Info) returns (run: seq<Step>)
    ensures IsRun(Start0(rtt), run)
    ensures var s := After(Start0(rtt), run);
            && |s.asked| == WRAP + 1 && s.outcomes != []
            && s.asked[WRAP] == Ask([2], 8) && s.outcomes[|s.outcomes| - 1].call == WRAP + 1
            && s.outcomes[|s.outcomes| - 1].delivered == [1]
  {
    var ts;
    run, ts := OldReply(rtt, WRAP);
    RunInv(rtt, run);
    run := Extend(Start0(rtt), run, Call([2], 8));
    run := Extend(Start0(rtt), run, Send);
    run := Extend(Start0(rtt), run, Arrive(Echo(Datagram(1, ts, [1]))));
    run := Extend(Start0(rtt), run, Step.Return);
  }
}
