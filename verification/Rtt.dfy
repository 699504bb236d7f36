/** lib/rtt.c: round-trip estimators, the retransmission timeout and its back-off. */
module Rtt {

  const RXT_MIN := 2.0
  const RXT_MAX := 60.0
  const MAX_REXMT := 3
  const WRAP := 0x1_0000_0000

  type uint32 = x: int | 0 <= x < 0x1_0000_0000

  /** struct rtt_info; the estimators are exact reals. */
  datatype Info = Info(rtt: real, srtt: real, rttvar: real, rto: real, nrexmt: nat, base: uint32)

  function MinMax(rto: real): real {
    if rto < RXT_MIN then RXT_MIN else if rto > RXT_MAX then RXT_MAX else rto
  }

  /** The smoothed round trip plus four deviations, clamped. */
  function RtoCalc(srtt: real, rttvar: real): real { MinMax(srtt + 4.0 * rttvar) }

  function Abs(x: real): real { if x < 0.0 then -x else x }

  /** rtt_init, `now` being microseconds since 1970. */
  function Init(i: Info, now: nat): Info {
    i.(rtt := 0.0, srtt := 0.0, rttvar := 0.75, rto := RtoCalc(0.0, 0.75), base := (now / 1_000_000) % WRAP)
  }

  /** rtt_ts: milliseconds since `base`, wrapped. */
  function Ts(i: Info, now: nat): uint32 {
    ((now / 1_000_000 - i.base) * 1000 + now % 1_000_000 / 1000) % WRAP
  }

  function NewPack(i: Info): Info { i.(nrexmt := 0) }

  /** rtt_start: the timeout rounded to whole seconds. */
  function Start(i: Info): int { (i.rto + 0.5).Floor }

  /** rtt_stop. */
  function Stop(i: Info, ms: uint32): Info {
    var rtt := ms as real / 1000.0;
    var delta := rtt - i.srtt;
    var srtt := i.srtt + delta / 8.0;
    var rttvar := i.rttvar + (Abs(delta) - i.rttvar) / 4.0;
    i.(rtt := rtt, srtt := srtt, rttvar := rttvar, rto := RtoCalc(srtt, rttvar))
  }

  /** rtt_timeout; giving up is the second result. */
  function Timeout(i: Info): (Info, bool) {
    (i.(rto := i.rto * 2.0, nrexmt := i.nrexmt + 1), i.nrexmt + 1 > MAX_REXMT)
  }

  // ---------------------------------------------------------------- the structure that the C functions update

  class RttInfo {
    var rtt: real
    var srtt: real
    var rttvar: real
    var rto: real
    var nrexmt: nat
    var base: uint32

    function View(): Info
      reads this
    {
      Info(rtt, srtt, rttvar, rto, nrexmt, base)
    }

    constructor ()
      ensures View() == Info(0.0, 0.0, 0.0, 0.0, 0, 0)
    {
      rtt, srtt, rttvar, rto, nrexmt, base := 0.0, 0.0, 0.0, 0.0, 0, 0;
    }

    method Initialize(now: nat)
      modifies this
      ensures View() == Init(old(View()), now)
    {
      base := (now / 1_000_000) % WRAP;
      rtt := 0.0;
      srtt := 0.0;
      rttvar := 0.75;
      rto := RtoCalc(srtt, rttvar);
    }

    method NewPacket()
      modifies this
      ensures View() == NewPack(old(View()))
    {
      nrexmt := 0;
    }

    method StopTimer(ms: uint32)
      modifies this
      ensures View() == Stop(old(View()), ms)
    {
      rtt := ms as real / 1000.0;
      var delta := rtt - srtt;
      srtt := srtt + delta / 8.0;
      if delta < 0.0 {
        delta := -delta;
      }
      rttvar := rttvar + (delta - rttvar) / 4.0;
      rto := RtoCalc(srtt, rttvar);
    }

    method TimedOut() returns (giveUp: bool)
      modifies this
      ensures (View(), giveUp) == Timeout(old(View()))
    {
      rto := rto * 2.0;
      nrexmt := nrexmt + 1;
      giveUp := nrexmt > MAX_REXMT;
    }
  }

  // ---------------------------------------------------------------- clock

  /** What rtt_init leaves: no round trip measured, a first timeout of 3 seconds, and the current second as base. */
  lemma {:induction false} InitValues(i: Info, now: nat)
    ensures var j := Init(i, now);
            && j.rtt == 0.0 && j.srtt == 0.0 && j.rttvar == 0.75 && j.rto == 3.0 && j.nrexmt == i.nrexmt
            && Ts(j, now) == now % 1_000_000 / 1000
  {
    TsCountsMilliseconds(Init(i, now), now);
    BaseAgrees(now / 1_000_000, now % 1_000_000 / 1000);
  }

  lemma {:induction false} BaseAgrees(s: nat, ms: nat)
    requires ms < 1000
    ensures (s * 1000 + ms - s % WRAP * 1000) % WRAP == ms
  {
    var q := s / WRAP;
    assert s == q * WRAP + s % WRAP;
    assert s * 1000 + ms - s % WRAP * 1000 == ms + q * 1000 * WRAP;
    AddWraps(ms, q * 1000);
  }

  lemma {:induction false} AddWraps(x: nat, k: nat)
    requires x < WRAP
    ensures (x + k * WRAP) % WRAP == x
  {}

  /** A timestamp counts milliseconds; re-basing shifts it by whole seconds. */
  lemma {:induction false} TsCountsMilliseconds(i: Info, now: nat)
    ensures Ts(i, now) == (now / 1000 - i.base * 1000) % WRAP
  {}

  lemma {:induction false} DifferenceMod(x: int, y: int, b: int)
    ensures ((x - b) % WRAP - (y - b) % WRAP) % WRAP == (x - y) % WRAP
  {}

  /** The difference of two timestamps with one base is the time between them, modulo 2^32 ms. */
  lemma {:induction false} TsDifference(i: Info, sent: nat, now: nat)
    ensures (Ts(i, now) - Ts(i, sent)) % WRAP == (now / 1000 - sent / 1000) % WRAP
  {
    TsCountsMilliseconds(i, now);
    TsCountsMilliseconds(i, sent);
    DifferenceMod(now / 1000, sent / 1000, i.base * 1000);
  }

  // ---------------------------------------------------------------- estimators

  /** What every initialized structure satisfies, `most` bounding the samples seen since it was initialized. */
  ghost predicate Bounded(i: Info, most: real) {
    && 0.0 <= i.srtt <= most
    && 0.0 <= i.rttvar && (i.rttvar <= 0.75 || i.rttvar <= most)
  }

  function Larger(x: real, y: real): real { if x < y then y else x }

  /** A new sample keeps srtt between 0 and the largest sample, and rttvar within max(0.75, largest sample). */
  lemma {:induction false} StopBounded(i: Info, ms: uint32, most: real)
    requires Bounded(i, most)
    ensures Bounded(Stop(i, ms), Larger(most, ms as real / 1000.0))
    ensures RXT_MIN <= Stop(i, ms).rto <= RXT_MAX
  {}

  /** Section 2.3 of RFC 6298, with gains 1/8 and 1/4: both estimators move towards the sample, off the old srtt. */
  lemma {:induction false} StopFollowsRfc6298(i: Info, ms: uint32)
    ensures var s, r := Stop(i, ms), ms as real / 1000.0;
            && s.rttvar == 3.0 / 4.0 * i.rttvar + 1.0 / 4.0 * Abs(i.srtt - r)
            && s.srtt == 7.0 / 8.0 * i.srtt + 1.0 / 8.0 * r
            && s.rto == Clamped(s.srtt + 4.0 * s.rttvar)
            && s.rtt == r && s.nrexmt == i.nrexmt && s.base == i.base
  {}

  function Clamped(x: real): real { if x < 2.0 then 2.0 else if x > 60.0 then 60.0 else x }

  datatype Estimate = Estimate(srtt: real, rttvar: real)

  /** The estimators after samples in milliseconds, by the formulas of section 2.3 of RFC 6298. */
  function Smoothed(samples: seq<uint32>): Estimate {
    if samples == [] then
      Estimate(0.0, 0.75)
    else
      var e, r := Smoothed(samples[..|samples| - 1]), samples[|samples| - 1] as real / 1000.0;
      Estimate(7.0 / 8.0 * e.srtt + 1.0 / 8.0 * r, 3.0 / 4.0 * e.rttvar + 1.0 / 4.0 * Abs(e.srtt - r))
  }

  function FirstTimeout(e: Estimate): real { Clamped(e.srtt + 4.0 * e.rttvar) }

  ghost predicate AtMost(samples: seq<uint32>, most: real) {
    0.0 <= most && forall k | 0 <= k < |samples| :: samples[k] as real / 1000.0 <= most
  }

  /** Samples of at most `most` seconds keep the smoothed round trip below that, and the deviation below that or 0.75. */
  lemma {:induction false} SmoothedBounded(samples: seq<uint32>, most: real)
    requires AtMost(samples, most)
    ensures 0.0 <= Smoothed(samples).srtt <= most
    ensures 0.0 <= Smoothed(samples).rttvar <= if most < 0.75 then 0.75 else most
  {
    hide Stop;
    if samples != [] {
      var n := |samples| - 1;
      SmoothedBounded(samples[..n], most);
      var e := Smoothed(samples[..n]);
      var i := Info(0.0, e.srtt, e.rttvar, 0.0, 0, 0);
      StopBounded(i, samples[n], most);
      StopFollowsRfc6298(i, samples[n]);
    }
  }

  // ---------------------------------------------------------------- back-off

  function Pow2(k: nat): (p: nat)
    ensures p >= 1
  {
    if k == 0 then 1 else 2 * Pow2(k - 1)
  }

  /** The k-th timer of a call whose first timeout is `rto`. */
  function Timer(rto: real, k: nat): int { (rto * Pow2(k) as real + 0.5).Floor }

  /** A timer is its timeout, doubled `k` times, to the nearest second. */
  lemma {:induction false} TimerRounds(rto: real, k: nat)
    ensures Timer(rto, k) as real - 0.5 <= rto * Pow2(k) as real < Timer(rto, k) as real + 0.5
    ensures Pow2(0) == 1 && Pow2(1) == 2 && Pow2(2) == 4 && Pow2(3) == 8
  {}

  /** Timers are never zero, which would cancel the alarm, and the four of a call sum to 900 s at most. */
  lemma {:induction false} TimersBounded(rto: real)
    requires 2.0 <= rto <= 60.0
    ensures forall k: nat | k <= 3 :: 2 <= Timer(rto, k) <= 60 * Pow2(k)
    ensures Timer(rto, 0) + Timer(rto, 1) + Timer(rto, 2) + Timer(rto, 3) <= 900
  {
    assert Pow2(0) == 1 && Pow2(1) == 2 && Pow2(2) == 4 && Pow2(3) == 8;
    forall k: nat | k <= 3 ensures 2 <= Timer(rto, k) <= 60 * Pow2(k) {
      assert k == 0 || k == 1 || k == 2 || k == 3;
    }
  }
}
