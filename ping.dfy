/**
 * `PingProcessor`: round-trip statistics over TCP pings and the contents
 * of outgoing TCP and UDP pings. Clock readings (`DateTime.Now.Ticks`) are
 * parameters. The running mean and variance are computed over the reals,
 * so `float` rounding is not modelled.
 */
module Ping {
  import opened Common
  import opened VarInt
  import opened Packets

  /** `TimeSpan.FromTicks(now - sent).TotalMilliseconds / 2`: half the round trip, in milliseconds. */
  function OneWayMillis(now: int, sent: int): real
  {
    (now - sent) as real / 10000.0 / 2.0
  }

  class PingProcessor {
    var meanOfPings: real
    var varianceTimesCountOfPings: real
    var countOfPings: nat
    var shouldSetTimestampWhenPinging: bool
    var tcpPingAverage: Option<real>
    var tcpPingVariance: Option<real>
    var tcpPingPackets: Option<nat>

    ghost predicate Valid()
      reads this
    {
      && (countOfPings == 0 ==> tcpPingPackets.None? && tcpPingAverage.None? && tcpPingVariance.None? && meanOfPings == 0.0)
      && (countOfPings > 0 ==> tcpPingPackets == Some(countOfPings) && tcpPingAverage == Some(meanOfPings) && tcpPingVariance.Some?)
    }

    constructor()
      ensures Valid() && countOfPings == 0 && !shouldSetTimestampWhenPinging
      ensures tcpPingAverage.None? && tcpPingVariance.None? && tcpPingPackets.None?
    {
      meanOfPings := 0.0;
      varianceTimesCountOfPings := 0.0;
      countOfPings := 0;
      shouldSetTimestampWhenPinging := false;
      tcpPingAverage := None;
      tcpPingVariance := None;
      tcpPingPackets := None;
    }

    /**
     * `ReceivePing`: every ping turns on timestamping of later pings; one
     * carrying a non-zero timestamp adds a sample to the running statistics
     * and publishes them.
     */
    method ReceivePing(ping: PingMsg, now: int)
      requires Valid()
      modifies this
      ensures Valid() && shouldSetTimestampWhenPinging
      ensures ping.timestamp.Some? && ping.timestamp.value != 0 ==>
        var sample := OneWayMillis(now, FromULong(ping.timestamp.value));
        && countOfPings == old(countOfPings) + 1
        && meanOfPings == RunningMean(old(meanOfPings), sample, countOfPings)
        && tcpPingPackets == Some(countOfPings) && tcpPingAverage == Some(meanOfPings)
        && varianceTimesCountOfPings == RunningSquares(old(varianceTimesCountOfPings), sample, meanOfPings, old(meanOfPings))
        && tcpPingVariance == Some(varianceTimesCountOfPings / countOfPings as real)
      ensures !(ping.timestamp.Some? && ping.timestamp.value != 0) ==>
        countOfPings == old(countOfPings) && meanOfPings == old(meanOfPings)
        && tcpPingAverage == old(tcpPingAverage) && tcpPingVariance == old(tcpPingVariance)
        && tcpPingPackets == old(tcpPingPackets)
    {
      shouldSetTimestampWhenPinging := true;
      if ping.timestamp.Some? && ping.timestamp.value != 0 {
        var mostRecentPingTime := OneWayMillis(now, FromULong(ping.timestamp.value));
        var previousMean := meanOfPings;
        var count := countOfPings + 1;
        var mean := RunningMean(previousMean, mostRecentPingTime, count);
        countOfPings := count;
        meanOfPings := mean;
        varianceTimesCountOfPings := RunningSquares(varianceTimesCountOfPings, mostRecentPingTime, mean, previousMean);
        tcpPingPackets := Some(count);
        tcpPingAverage := Some(mean);
        tcpPingVariance := Some(varianceTimesCountOfPings / count as real);
      }
    }

    /** `CreateTcpPing`: a ping carrying whatever statistics exist, and a timestamp once a ping has been received. */
    function CreateTcpPing(now: int): (r: PingMsg)
      requires IsLong(now)
      reads this
      ensures r.timestamp.Some? <==> shouldSetTimestampWhenPinging
      ensures r.timestamp.Some? ==> FromULong(r.timestamp.value) == now
      ensures r.tcpPingAvg == tcpPingAverage && r.tcpPingVar == tcpPingVariance && r.tcpPackets == tcpPingPackets
    {
      LongRoundTrip(now);
      PingMsg(
        if shouldSetTimestampWhenPinging then Some(ToULong(now)) else None,
        if tcpPingAverage.Some? then Some(tcpPingAverage.value) else None,
        if tcpPingVariance.Some? then Some(tcpPingVariance.value) else None,
        if tcpPingPackets.Some? then Some(tcpPingPackets.value) else None)
    }

    /** `CreateUdpPing`: a 9-byte packet, the type byte 1 << 5 followed by the timestamp big-endian. */
    method CreateUdpPing(now: int) returns (r: seq<byte>)
      requires IsLong(now)
      ensures |r| == 9 && r[0] == 0x20
      ensures BeValue(r[1..]) == ToULong(now) && FromULong(BeValue(r[1..])) == now
    {
      var timestamp := ToULong(now);
      var buffer := new byte[9];
      buffer[0] := 0x20;
      var k := 1;
      while k < 9
        invariant 1 <= k <= 9
        invariant buffer[0] == 0x20
        invariant forall j | 1 <= j < k :: buffer[j] == ByteAt(timestamp, 8 - j)
      {
        buffer[k] := ByteAt(timestamp, 8 - k);
        k := k + 1;
      }
      r := buffer[..];
      assert r[1..] == BigEndian(timestamp, 8) by {
        forall j | 0 <= j < 8
          ensures r[1..][j] == BigEndian(timestamp, 8)[j]
        {
          BigEndianByteAt(timestamp, 8, j);
        }
      }
      PowValues();
      HighPartZero(timestamp, 8);
    }
  }

  /** `_meanOfPings + ((sample - _meanOfPings) / _countOfPings)` after the count was incremented. */
  function RunningMean(mean: real, sample: real, count: nat): real
    requires count > 0
  {
    mean + (sample - mean) / count as real
  }

  /** Welford's update of the sum of squared deviations. */
  function RunningSquares(squares: real, sample: real, mean: real, previousMean: real): real
  {
    squares + (sample - mean) * (sample - previousMean)
  }

}
