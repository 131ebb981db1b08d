/**
 * The decision logic of the M-Bus to MQTT bridge: the two request frames, the merge of
 * the decoded telegrams, one acquisition round, the consecutive-failure counter of the
 * polling loop, the watchdog staleness test and the publish-or-drop rule. Serial and
 * MQTT traffic appear only as inputs (what the meter answered, what the connection flag
 * became) and as logs of what was sent.
 */
module Sensor {
  import opened Wrappers
  import opened Bytes
  import opened Decode
  import opened TelegramProperties

  // -------------------------------------------------------- request frames

  /** Start and stop characters of an M-Bus short frame (EN 13757-2 link layer). */
  const ShortStart: Byte := 0x10
  const ShortStop: Byte := 0x16

  /** The frame-count bit of the C field, which alternates between successive requests. */
  const FcbBit: Byte := 0x20

  /** The short-frame checksum: the 8-bit sum of C and A. */
  function Checksum(c: Byte, a: Byte): Byte {
    (c + a) % 256
  }

  /** The short frame `0x10 C A CS 0x16`. */
  function ShortFrame(c: Byte, a: Byte): seq<Byte> {
    [ShortStart, c, a, Checksum(c, a), ShortStop]
  }

  /** Reading a short frame back: its C and A fields, or None if any check fails. */
  function ParseShortFrame(f: seq<Byte>): (r: Option<(Byte, Byte)>)
    ensures r.Some? ==> |f| == 5 && f[0] == ShortStart && f[4] == ShortStop
  {
    if |f| == 5 && f[0] == ShortStart && f[4] == ShortStop && f[3] == Checksum(f[1], f[2])
    then Some((f[1], f[2]))
    else None
  }

  /** Building then parsing a short frame gives back its fields, and nothing else parses. */
  lemma ShortFrameRoundTrip(c: Byte, a: Byte, f: seq<Byte>)
    ensures ParseShortFrame(ShortFrame(c, a)) == Some((c, a))
    ensures ParseShortFrame(f) == Some((c, a)) ==> f == ShortFrame(c, a)
  {
    if ParseShortFrame(f) == Some((c, a)) {
      assert f == [f[0], f[1], f[2], f[3], f[4]];
    }
  }

  /** The first request of an acquisition round (C = 0x5B, address 1). */
  const RequestFrame1: seq<Byte> := [0x10, 0x5B, 0x01, 0x5C, 0x16]

  /** The second request (C = 0x7B, address 1). */
  const RequestFrame2: seq<Byte> := [0x10, 0x7B, 0x01, 0x7C, 0x16]

  /**
   * Both requests are well-formed short frames to address 1; they differ only in the
   * frame-count bit of C, clear in the first and set in the second, and so in the checksum.
   */
  lemma RequestFrames()
    ensures ParseShortFrame(RequestFrame1) == Some((0x5B, 0x01))
    ensures ParseShortFrame(RequestFrame2) == Some((0x7B, 0x01))
    ensures RequestFrame1 == ShortFrame(0x5B, 0x01) && RequestFrame2 == ShortFrame(0x7B, 0x01)
    ensures (0x5B / FcbBit) % 2 == 0 && 0x7B == 0x5B + FcbBit
    ensures forall i | 0 <= i < 5 && i != 1 && i != 3 :: RequestFrame1[i] == RequestFrame2[i]
  {
  }

  // ----------------------------------------------------------------- merge

  /** `dict(telegram1, **telegram2)`: every key of either, telegram 2 winning a shared key. */
  function Merge(t1: Record, t2: Record): (m: Record)
    ensures m.Keys == t1.Keys + t2.Keys
    ensures forall k <- t2 :: m[k] == t2[k]
    ensures forall k | k in t1 && k !in t2 :: m[k] == t1[k]
  {
    t1 + t2
  }

  /**
   * Merging the two decoded telegrams loses nothing: the result has every key, the
   * total energy comes from telegram 1 and everything else from telegram 2.
   */
  lemma MergedTelegrams(r1: seq<Byte>, r2: seq<Byte>) returns (m: Record)
    requires |r1| >= Telegram1Length && |r2| >= Telegram2Length
    ensures m == Merge(DecodeTelegram1(r1).value, DecodeTelegram2(r2).value)
    ensures forall k :: k in m
    ensures m[EnergyTotal] == FieldEntry(r1, EnergyTotalField)
    ensures forall k | k != EnergyTotal :: m[k] == DecodeTelegram2(r2).value[k]
  {
    var m2 := Telegram2Decoded(r2);
    m := Merge(DecodeTelegram1(r1).value, m2);
    forall k
      ensures k != EnergyTotal ==> k in m2
    {
      MeasurementKey(k);
    }
  }

  // ----------------------------------------------------------- acquisition

  /**
   * What the bus did in one acquisition round: whether the serial port opened, and
   * the frame received after each request (None when receiving raised).
   */
  datatype Link = Link(opens: bool, reply1: Option<seq<Byte>>, reply2: Option<seq<Byte>>)

  /** The outcome of one round: the merged record or None, and the requests sent. */
  datatype Acquisition = Acquisition(data: Option<Record>, sent: seq<seq<Byte>>)

  /** Telegram 1 arrived and decodes. */
  predicate Telegram1Ok(link: Link) {
    link.reply1.Some? && DecodeTelegram1(link.reply1.value).Success?
  }

  /** Telegram 2 arrived and decodes. */
  predicate Telegram2Ok(link: Link) {
    link.reply2.Some? && DecodeTelegram2(link.reply2.value).Success?
  }

  /**
   * `mbus_fetch_data`: open the port, request and decode telegram 1, then request and
   * decode telegram 2, then merge. Any exception ends the round with None.
   */
  function Acquire(link: Link): (r: Acquisition)
    ensures r.data.Some? <==> link.opens && Telegram1Ok(link) && Telegram2Ok(link)
    ensures r.data.Some? ==>
      r.data.value == Merge(DecodeTelegram1(link.reply1.value).value, DecodeTelegram2(link.reply2.value).value)
    ensures |r.sent| <= 2 && r.sent == [RequestFrame1, RequestFrame2][..|r.sent|]
    ensures |r.sent| == 2 <==> link.opens && Telegram1Ok(link)
    ensures |r.sent| == 0 <==> !link.opens
  {
    if !link.opens then Acquisition(None, [])
    else if !Telegram1Ok(link) then Acquisition(None, [RequestFrame1])
    else if !Telegram2Ok(link) then Acquisition(None, [RequestFrame1, RequestFrame2])
    else
      var t1 := DecodeTelegram1(link.reply1.value).value;
      var t2 := DecodeTelegram2(link.reply2.value).value;
      Acquisition(Some(Merge(t1, t2)), [RequestFrame1, RequestFrame2])
  }

  /**
   * A round succeeds exactly when the port opens and the two replies are at least 28
   * and 199 bytes long; its record then holds all 18 keys, so it is never empty.
   */
  lemma AcquireSucceeds(link: Link)
    ensures Acquire(link).data.Some? <==>
      link.opens && link.reply1.Some? && |link.reply1.value| >= Telegram1Length
      && link.reply2.Some? && |link.reply2.value| >= Telegram2Length
    ensures Acquire(link).data.Some? ==> (forall k :: k in Acquire(link).data.value) && Acquire(link).data.value != map[]
  {
    if Acquire(link).data.Some? {
      var m := MergedTelegrams(link.reply1.value, link.reply2.value);
      assert EnergyTotal in m;
    }
  }

  // --------------------------------------------------------- failure counter

  /** Consecutive failed fetches after which the poller signals a restart. */
  const MaxFailures: nat := 5

  /** The counter after polls with the given outcomes (true = data fetched), from `start`. */
  function FailuresAfter(start: nat, outcomes: seq<bool>): (n: nat)
    ensures n <= start + |outcomes|
  {
    if outcomes == [] then start
    else if outcomes[|outcomes| - 1] then 0
    else FailuresAfter(start, outcomes[..|outcomes| - 1]) + 1
  }

  /**
   * The restart signal of the last poll of `outcomes`: only a failed poll signals, and
   * not before at least five polls have been counted.
   */
  predicate RestartAfter(start: nat, outcomes: seq<bool>)
    ensures RestartAfter(start, outcomes) ==> outcomes != [] && !outcomes[|outcomes| - 1]
    ensures RestartAfter(start, outcomes) ==> start + |outcomes| >= MaxFailures
  {
    outcomes != [] && !outcomes[|outcomes| - 1] && FailuresAfter(start, outcomes) >= MaxFailures
  }

  /**
   * From 0 the counter is the number of trailing failures: the last n polls failed and,
   * unless every poll failed, the one before them succeeded.
   */
  lemma {:induction false} CounterCountsTrailingFailures(outcomes: seq<bool>)
    ensures FailuresAfter(0, outcomes) <= |outcomes|
    ensures forall i | |outcomes| - FailuresAfter(0, outcomes) <= i < |outcomes| :: !outcomes[i]
    ensures FailuresAfter(0, outcomes) < |outcomes| ==> outcomes[|outcomes| - 1 - FailuresAfter(0, outcomes)]
  {
    if outcomes != [] {
      var init := outcomes[..|outcomes| - 1];
      CounterCountsTrailingFailures(init);
      assert forall i | 0 <= i < |init| :: init[i] == outcomes[i];
    }
  }

  /** From 0 a poll signals restart iff it and the four before it all failed. */
  lemma RestartIffLastFiveFailed(outcomes: seq<bool>)
    ensures RestartAfter(0, outcomes) <==>
      |outcomes| >= MaxFailures && forall i | |outcomes| - MaxFailures <= i < |outcomes| :: !outcomes[i]
  {
    CounterCountsTrailingFailures(outcomes);
    if |outcomes| >= MaxFailures {
      TrailingFailuresCounted(outcomes, MaxFailures);
    }
  }

  /** If the last m polls failed, the counter from 0 is at least m. */
  lemma {:induction false} TrailingFailuresCounted(outcomes: seq<bool>, m: nat)
    requires m <= |outcomes|
    ensures (forall i | |outcomes| - m <= i < |outcomes| :: !outcomes[i]) ==> FailuresAfter(0, outcomes) >= m
  {
    if m > 0 && forall i | |outcomes| - m <= i < |outcomes| :: !outcomes[i] {
      var init := outcomes[..|outcomes| - 1];
      assert !outcomes[|outcomes| - 1];
      assert forall i | |init| - (m - 1) <= i < |init| :: init[i] == outcomes[i];
      TrailingFailuresCounted(init, m - 1);
    }
  }

  /** A run of k failed polls. */
  function Failures(k: nat): (o: seq<bool>)
    ensures |o| == k && forall i | 0 <= i < k :: !o[i]
  {
    seq(k, _ => false)
  }

  /** `k` more failures add `k` to the counter. */
  lemma {:induction false} FailuresAccumulate(start: nat, outcomes: seq<bool>, k: nat)
    ensures FailuresAfter(start, outcomes + Failures(k)) == FailuresAfter(start, outcomes) + k
  {
    if k > 0 {
      var run := outcomes + Failures(k);
      assert run != [] && !run[|run| - 1];
      assert run[..|run| - 1] == outcomes + Failures(k - 1);
      FailuresAccumulate(start, outcomes, k - 1);
    } else {
      assert outcomes + Failures(0) == outcomes;
    }
  }

  /**
   * Starting from 0, or right after a successful poll, the k-th consecutive failure
   * signals restart iff k >= 5: never before the fifth, and on every one after it.
   */
  lemma FirstRestartOnFifthFailure(start: nat, outcomes: seq<bool>, k: nat)
    requires k >= 1
    requires outcomes == [] ==> start == 0
    requires outcomes != [] ==> outcomes[|outcomes| - 1]
    ensures FailuresAfter(start, outcomes + Failures(k)) == k
    ensures RestartAfter(start, outcomes + Failures(k)) <==> k >= MaxFailures
  {
    FailuresAccumulate(start, outcomes, k);
    var run := outcomes + Failures(k);
    assert run[|run| - 1] == false;
  }

  // --------------------------------------------------------------- watchdog

  /** `check_health`'s test: more than `maxTime` seconds since the last successful read. */
  predicate Stale(now: real, lastRead: real, maxTime: real)
    ensures Stale(now, lastRead, maxTime) <==> now > lastRead + maxTime
  {
    now - lastRead > maxTime
  }

  /**
   * Before any successful read the timestamp is 0, so the watchdog fires as soon as the
   * clock passes `maxTime`; a read at `t` keeps it quiet until strictly after t + maxTime,
   * and once stale it stays stale until the next read.
   */
  lemma StaleProperties(now: real, later: real, lastRead: real, maxTime: real)
    ensures Stale(now, 0.0, maxTime) <==> now > maxTime
    ensures !Stale(now, lastRead, maxTime) <==> now <= lastRead + maxTime
    ensures Stale(now, lastRead, maxTime) && now <= later ==> Stale(later, lastRead, maxTime)
  {
  }

  // ------------------------------------------------------------- supervisor

  /**
   * The bridge's mutable state: the poller's failure counter, the timestamp of the last
   * successful read, the MQTT connection flag, and logs of the requests put on the bus,
   * the payloads published and the reconnection attempts.
   */
  class Supervisor {
    var consecutiveFailures: nat
    var lastSuccessfulRead: real
    var mqttConnected: bool
    ghost var sent: seq<seq<Byte>>
    ghost var published: seq<Record>
    ghost var reconnectAttempts: nat

    /** The state at start-up: no failures, timestamp 0, not connected. */
    constructor ()
      ensures consecutiveFailures == 0 && lastSuccessfulRead == 0.0 && !mqttConnected
      ensures sent == [] && published == [] && reconnectAttempts == 0
    {
      consecutiveFailures := 0;
      lastSuccessfulRead := 0.0;
      mqttConnected := false;
      sent := [];
      published := [];
      reconnectAttempts := 0;
    }

    /** `on_connect`: connected iff the broker's return code is 0. */
    method OnConnect(rc: int)
      modifies this
      ensures mqttConnected <==> rc == 0
      ensures consecutiveFailures == old(consecutiveFailures) && lastSuccessfulRead == old(lastSuccessfulRead)
      ensures sent == old(sent) && published == old(published) && reconnectAttempts == old(reconnectAttempts)
    {
      mqttConnected := rc == 0;
    }

    /** `on_disconnect`: the flag drops. */
    method OnDisconnect()
      modifies this
      ensures !mqttConnected
      ensures consecutiveFailures == old(consecutiveFailures) && lastSuccessfulRead == old(lastSuccessfulRead)
      ensures sent == old(sent) && published == old(published) && reconnectAttempts == old(reconnectAttempts)
    {
      mqttConnected := false;
    }

    /**
     * `mbus_fetch_data` at clock reading `now`: the round `Acquire` describes, with the
     * timestamp moved to `now` only when the round produced a record.
     */
    method FetchData(link: Link, now: real) returns (data: Option<Record>)
      modifies this
      ensures data == Acquire(link).data
      ensures sent == old(sent) + Acquire(link).sent
      ensures lastSuccessfulRead == if data.Some? then now else old(lastSuccessfulRead)
      ensures consecutiveFailures == old(consecutiveFailures) && mqttConnected == old(mqttConnected)
      ensures published == old(published) && reconnectAttempts == old(reconnectAttempts)
    {
      data := None;
      if !link.opens {
        return;
      }
      sent := sent + [RequestFrame1];
      if link.reply1.None? {
        return;
      }
      var telegram1 := DecodeTelegram1(link.reply1.value);
      if telegram1.Failure? {
        return;
      }
      sent := sent + [RequestFrame2];
      if link.reply2.None? {
        return;
      }
      var telegram2 := DecodeTelegram2(link.reply2.value);
      if telegram2.Failure? {
        return;
      }
      data := Some(Merge(telegram1.value, telegram2.value));
      lastSuccessfulRead := now;
    }

    /**
     * `mqtt_publish_sensor_data`: when the flag is down, one reconnection is attempted
     * and `flagAfterWait` is the flag once the wait is over. The payload is published iff
     * the flag is then up; otherwise it is dropped.
     */
    method PublishSensorData(data: Record, flagAfterWait: bool) returns (delivered: bool)
      modifies this
      ensures mqttConnected == (old(mqttConnected) || flagAfterWait)
      ensures delivered == mqttConnected
      ensures published == old(published) + (if delivered then [data] else [])
      ensures reconnectAttempts == old(reconnectAttempts) + (if old(mqttConnected) then 0 else 1)
      ensures consecutiveFailures == old(consecutiveFailures) && lastSuccessfulRead == old(lastSuccessfulRead)
      ensures sent == old(sent)
    {
      if !mqttConnected {
        reconnectAttempts := reconnectAttempts + 1;
        mqttConnected := flagAfterWait;
      }
      if mqttConnected {
        published := published + [data];
        delivered := true;
      } else {
        delivered := false;
      }
    }

    /**
     * The counter rule of the polling loop: a fetched poll resets the counter, a failed
     * one adds one and signals restart once the count reaches 5.
     */
    method Step(fetchOk: bool) returns (restart: bool)
      modifies this
      ensures consecutiveFailures == FailuresAfter(old(consecutiveFailures), [fetchOk])
      ensures restart == RestartAfter(old(consecutiveFailures), [fetchOk])
      ensures fetchOk ==> consecutiveFailures == 0 && !restart
      ensures !fetchOk ==> consecutiveFailures == old(consecutiveFailures) + 1
      ensures lastSuccessfulRead == old(lastSuccessfulRead) && mqttConnected == old(mqttConnected)
      ensures sent == old(sent) && published == old(published) && reconnectAttempts == old(reconnectAttempts)
    {
      if fetchOk {
        consecutiveFailures := 0;
        restart := false;
      } else {
        consecutiveFailures := consecutiveFailures + 1;
        restart := consecutiveFailures >= MaxFailures;
      }
      assert [fetchOk][..0] == [];
    }

    /**
     * One iteration of `poll_and_publish_data`: fetch; a non-empty record is published
     * (subject to the connection flag) and counts as success, anything else as failure.
     * Whether the publish was delivered does not affect the counter.
     */
    method PollAndPublish(link: Link, now: real, flagAfterWait: bool) returns (restart: bool)
      modifies this
      ensures var r := Acquire(link);
        && consecutiveFailures == FailuresAfter(old(consecutiveFailures), [r.data.Some?])
        && restart == RestartAfter(old(consecutiveFailures), [r.data.Some?])
        && sent == old(sent) + r.sent
        && lastSuccessfulRead == (if r.data.Some? then now else old(lastSuccessfulRead))
        && published == old(published) + (if r.data.Some? && mqttConnected then [r.data.value] else [])
        && (r.data.Some? ==> mqttConnected == (old(mqttConnected) || flagAfterWait))
        && (r.data.Some? ==> reconnectAttempts == old(reconnectAttempts) + (if old(mqttConnected) then 0 else 1))
        && (r.data.None? ==> mqttConnected == old(mqttConnected) && reconnectAttempts == old(reconnectAttempts))
    {
      var data := FetchData(link, now);
      AcquireSucceeds(link);
      var fetched := data.Some? && data.value != map[];
      if fetched {
        var _ := PublishSensorData(data.value, flagAfterWait);
      }
      restart := Step(fetched);
    }

    /**
     * The counter part of `poll_and_publish_data`'s `while True` loop, run for the given
     * outcomes: each poll's signal and the final counter agree with `FailuresAfter`.
     */
    method PollLoop(outcomes: seq<bool>) returns (signals: seq<bool>)
      modifies this
      ensures |signals| == |outcomes|
      ensures consecutiveFailures == FailuresAfter(old(consecutiveFailures), outcomes)
      ensures forall i | 0 <= i < |outcomes| :: signals[i] == RestartAfter(old(consecutiveFailures), outcomes[..i + 1])
      ensures lastSuccessfulRead == old(lastSuccessfulRead) && mqttConnected == old(mqttConnected)
      ensures sent == old(sent) && published == old(published) && reconnectAttempts == old(reconnectAttempts)
    {
      var start := consecutiveFailures;
      signals := [];
      var i := 0;
      while i < |outcomes|
        invariant 0 <= i <= |outcomes| && |signals| == i
        invariant consecutiveFailures == FailuresAfter(start, outcomes[..i])
        invariant forall j | 0 <= j < i :: signals[j] == RestartAfter(start, outcomes[..j + 1])
        invariant lastSuccessfulRead == old(lastSuccessfulRead) && mqttConnected == old(mqttConnected)
        invariant sent == old(sent) && published == old(published) && reconnectAttempts == old(reconnectAttempts)
      {
        var restart := Step(outcomes[i]);
        assert outcomes[..i + 1][..i] == outcomes[..i];
        signals := signals + [restart];
        i := i + 1;
      }
      assert outcomes[..i] == outcomes;
    }

    /** One tick of `check_health`: signal restart iff the last read is stale. */
    method CheckHealth(now: real, maxTime: real) returns (restart: bool)
      ensures restart <==> now - lastSuccessfulRead > maxTime
    {
      restart := Stale(now, lastSuccessfulRead, maxTime);
    }
  }
}
