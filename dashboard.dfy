/**
 * The dashboard session: the state the `boot` closure keeps (socket handle,
 * reconnect timer, backoff, the two 30-bucket windows, the latency history,
 * the sample ledger) and one method per event that changes it — connecting,
 * the socket's open/close/error/message callbacks, the reconnect timer, the
 * manual reconnect button and the one-second metrics tick.
 */
module Dashboard {
  import opened Wrappers
  import Text
  import Numbers
  import Fifo
  import Metrics
  import LiveLogComponent
  import RobotMapComponent

  const InitialBackoff: int := 1000
  /** `backoffMax`. */
  const BackoffMax: int := 10_000
  /** Capacity of `latencySamples`. */
  const LatencyCap: nat := 2000
  /** Capacity of `samples`. */
  const SampleCap: nat := 1000

  // ---- Inbound frames ----

  /**
   * A frame after `JSON.parse`. `kind` is the `type` field and `data` is
   * `String(obj.data)`. `sizeBytes` is the integer `size_bytes`, 0 when the
   * field is absent or falsy, which is all the handler's `||` distinguishes
   * for integers. `recvTsMs` is `Math.floor(recv_ts * 1000)` when `recv_ts`
   * is truthy (any non-zero number, so a stamp below one millisecond gives
   * `Some(0)`) and `None` when it is absent or falsy. `x` and `y` are the
   * `Number()` coercions of the pose fields. `Unparseable` is a frame on
   * which `JSON.parse` threw.
   */
  datatype Frame =
    | Parsed(kind: string, data: string, sizeBytes: int, recvTsMs: Option<int>, x: real, y: real)
    | Unparseable

  predicate IsKind(frame: Frame, k: string)
  {
    frame.Parsed? && frame.kind == k
  }

  /** The two trailing fields of a chatter payload, each absent unless numeric. */
  datatype Trailer = Trailer(seqNum: Option<int>, sendMs: Option<int>)

  /**
   * `text.split('|')`, then `Number()` of the second-to-last and last pieces
   * when there are three or more. Both fields are absent unless the text
   * holds at least two bars.
   */
  function ParseTrailer(text: string): (r: Trailer)
    ensures Text.Occurrences(text, Text.Bar) < 2 ==> r == Trailer(None, None)
  {
    Text.SplitCount(text);
    var parts := Text.Split(text);
    if |parts| >= 3 then Trailer(Numbers.ParseNumber(parts[|parts| - 2]), Numbers.ParseNumber(parts[|parts| - 1]))
    else Trailer(None, None)
  }

  /** The payload the demo publisher sends: `"<text> |<i>|<stamp>"`. */
  function PublisherPayload(text: string, i: nat, stamp: nat): string
  {
    text + " |" + Numbers.Decimal(i) + "|" + Numbers.Decimal(stamp)
  }

  lemma DigitsHaveNoBar(n: nat)
    ensures Text.Bar !in Numbers.Decimal(n)
  {
    var d := Numbers.Decimal(n);
    assert forall k :: 0 <= k < |d| ==> Numbers.IsDigit(d[k]);
    assert !Numbers.IsDigit(Text.Bar);
  }

  /** A publisher payload parses back to its sequence number and send stamp, whatever the text before them. */
  lemma PublisherPayloadParses(text: string, i: nat, stamp: nat)
    ensures ParseTrailer(PublisherPayload(text, i, stamp)) == Trailer(Some(i), Some(stamp))
  {
    var a, di, ds := text + " ", Numbers.Decimal(i), Numbers.Decimal(stamp);
    assert PublisherPayload(text, i, stamp) == (a + [Text.Bar] + di) + [Text.Bar] + ds;
    DigitsHaveNoBar(i);
    DigitsHaveNoBar(stamp);
    Text.SplitLast(a + [Text.Bar] + di, ds);
    Text.SplitLast(a, di);
    Numbers.ParseDecimal(i);
    Numbers.ParseDecimal(stamp);
  }

  /** With two or more bars, the fields are `Number()` of the last two pieces, whatever precedes them. */
  lemma GeneralTrailer(a: string, b: string, c: string)
    requires Text.Bar !in b && Text.Bar !in c
    ensures ParseTrailer(a + [Text.Bar] + b + [Text.Bar] + c) == Trailer(Numbers.ParseNumber(b), Numbers.ParseNumber(c))
  {
    Text.SplitLast(a + [Text.Bar] + b, c);
    Text.SplitLast(a, b);
  }

  /** A payload with fewer than two bars splits into fewer than three pieces: both fields are absent. */
  lemma FewerThanTwoBars(text: string)
    requires Text.Occurrences(text, Text.Bar) < 2
    ensures ParseTrailer(text) == Trailer(None, None)
  {
    Text.SplitCount(text);
  }

  /**
   * `Number("")` is 0, so empty trailing pieces count as numeric: a payload
   * ending in two bars yields sequence 0 sent at time 0.
   */
  lemma EmptyTrailingPieces(text: string)
    ensures ParseTrailer(text + "||") == Trailer(Some(0), Some(0))
  {
    assert text + "||" == (text + [Text.Bar] + "") + [Text.Bar] + "";
    Text.SplitLast(text + [Text.Bar] + "", "");
    Text.SplitLast(text, "");
  }

  /** `Math.max(0, recvMs - sendMs)`. */
  function Latency(recvMs: int, sendMs: int): (l: int)
    ensures l >= 0 && l >= recvMs - sendMs
    ensures l == 0 || l == recvMs - sendMs
  {
    if recvMs - sendMs < 0 then 0 else recvMs - sendMs
  }

  /**
   * `Math.floor((obj.recv_ts || Date.now() / 1000) * 1000)`; `nowMs` is the
   * clock read, already in whole milliseconds.
   */
  function RecvMs(frame: Frame, nowMs: int): (r: int)
    requires frame.Parsed?
    ensures frame.recvTsMs.Some? ==> r == frame.recvTsMs.value
    ensures frame.recvTsMs.None? ==> r == nowMs
  {
    frame.recvTsMs.GetOr(nowMs)
  }

  /** `obj.size_bytes || text.length`, where `length` counts UTF-16 units. */
  function SizeOf(frame: Frame): (r: int)
    requires frame.Parsed?
    ensures frame.sizeBytes != 0 ==> r == frame.sizeBytes
    ensures frame.sizeBytes == 0 ==> |frame.data| <= r <= 2 * |frame.data|
  {
    if frame.sizeBytes != 0 then frame.sizeBytes else Text.Utf16Len(frame.data)
  }

  /** One row of the ledger (`Sample`). */
  datatype Sample = Sample(seqNum: int, sendMs: int, recvMs: int, latencyMs: int, sizeBytes: int, data: string)

  predicate WellFormed(s: Sample)
  {
    s.latencyMs == Latency(s.recvMs, s.sendMs)
  }

  // ---- Backoff ----

  /** The delays the backoff can take: 1000 doubled up to the 10000 cap. */
  predicate IsBackoffStep(b: int)
  {
    b == 1000 || b == 2000 || b == 4000 || b == 8000 || b == 10_000
  }

  /** `Math.min(backoff * 2, backoffMax)`. */
  function NextBackoff(b: int): (r: int)
    ensures r <= BackoffMax
  {
    Numbers.Min(b * 2, BackoffMax)
  }

  /** The backoff after `k` timer firings without a successful open in between. */
  function BackoffAfter(k: nat): int
  {
    if k == 0 then InitialBackoff else NextBackoff(BackoffAfter(k - 1))
  }

  function Pow2(k: nat): nat
  {
    if k == 0 then 1 else 2 * Pow2(k - 1)
  }

  lemma {:induction false} Pow2AtLeast16(k: nat)
    requires k >= 4
    ensures Pow2(k) >= 16
  {
    if k > 4 {
      Pow2AtLeast16(k - 1);
    }
  }

  /** Doubling from 1000 and capping at 10000 always lands on one of the five steps. */
  lemma BackoffStepClosed(b: int)
    requires IsBackoffStep(b)
    ensures IsBackoffStep(NextBackoff(b))
    ensures InitialBackoff <= NextBackoff(b) <= BackoffMax
  {
  }

  /** After k firings the delay is `min(1000 * 2^k, 10000)`: 1000, 2000, 4000, 8000, then 10000 for good. */
  lemma {:induction false} BackoffClosedForm(k: nat)
    ensures BackoffAfter(k) == Numbers.Min(InitialBackoff * Pow2(k), BackoffMax)
    ensures IsBackoffStep(BackoffAfter(k))
  {
    if k > 0 {
      BackoffClosedForm(k - 1);
      if k >= 5 {
        Pow2AtLeast16(k - 1);
      } else if k == 4 {
        assert Pow2(4) == 16 by {
          assert Pow2(3) == 8 by { assert Pow2(2) == 4 by { assert Pow2(1) == 2; } }
        }
      }
    }
  }

  /** The schedule from a fresh start. */
  lemma BackoffSchedule()
    ensures [BackoffAfter(0), BackoffAfter(1), BackoffAfter(2), BackoffAfter(3), BackoffAfter(4), BackoffAfter(5)]
         == [1000, 2000, 4000, 8000, 10_000, 10_000]
  {
  }

  /** The aggregates one tick publishes: throughput, bandwidth, p95 (none shows "--") and the chart data. */
  datatype Snapshot = Snapshot(tps: real, kbps: real, p95: Option<int>, chart: seq<int>)

  class Session {
    /** Whether the configured address turns into a socket; it is fixed for the page's lifetime. */
    const urlOk: bool
    const liveLog: LiveLogComponent.LiveLog
    const robotMap: RobotMapComponent.RobotMap
    const countWindow: array<int>
    const bytesWindow: array<int>

    /** The current socket, as the number of the `connect` that created it. */
    var ws: Option<nat>
    /** Sockets created so far. */
    var created: nat
    /** Sockets `connect` has called `close()` on. */
    var closed: set<nat>
    /** What the status pill shows. */
    var connected: bool
    /** The pending retry, holding the delay it was armed with. */
    var reconnectTimer: Option<int>
    var backoff: int
    var bucketIdx: nat
    var latencySamples: seq<int>
    var msgsTotal: nat
    var samples: seq<Sample>
    /** Toast messages shown, oldest first. */
    var notices: seq<string>

    ghost predicate Valid()
      reads this, liveLog, robotMap, countWindow
    {
      && countWindow.Length == Metrics.Buckets && bytesWindow.Length == Metrics.Buckets
      && countWindow != bytesWindow
      && (forall i :: 0 <= i < Metrics.Buckets ==> countWindow[i] >= 0)
      && bucketIdx < Metrics.Buckets
      && IsBackoffStep(backoff)
      && (reconnectTimer.Some? ==> IsBackoffStep(reconnectTimer.value))
      && (ws.Some? ==> ws.value < created)
      && (forall h :: h in closed ==> h < created)
      && (!urlOk ==> ws.None? && created == 0)
      && |latencySamples| <= LatencyCap
      && (forall i :: 0 <= i < |latencySamples| ==> latencySamples[i] >= 0)
      && |samples| <= SampleCap
      && (forall i :: 0 <= i < |samples| ==> WellFormed(samples[i]))
      && liveLog.Valid() && robotMap.Valid()
    }

    /** What one `connect()` does, relative to the state before it. */
    ghost predicate AfterConnect(oldWs: Option<nat>, oldCreated: nat, oldClosed: set<nat>, oldConnected: bool, oldNotices: seq<string>)
      reads this
    {
      && closed == (if oldWs.Some? then oldClosed + {oldWs.value} else oldClosed)
      && (urlOk ==> ws == Some(oldCreated) && created == oldCreated + 1
                    && connected == oldConnected && notices == oldNotices)
      && (!urlOk ==> ws == oldWs && created == oldCreated
                     && !connected && notices == oldNotices + ["Bad WS URL"])
    }

    /** `boot`: the initial state, then `connect()`. */
    constructor (urlOk: bool, liveLog: LiveLogComponent.LiveLog, robotMap: RobotMapComponent.RobotMap)
      requires liveLog.Valid() && robotMap.Valid()
      ensures Valid()
      ensures this.urlOk == urlOk && this.liveLog == liveLog && this.robotMap == robotMap
      ensures fresh(countWindow) && fresh(bytesWindow)
      ensures countWindow[..] == seq(Metrics.Buckets, _ => 0) && bytesWindow[..] == seq(Metrics.Buckets, _ => 0)
      ensures bucketIdx == 0 && backoff == InitialBackoff && reconnectTimer == None
      ensures latencySamples == [] && samples == [] && msgsTotal == 0
      ensures AfterConnect(None, 0, {}, false, [])
    {
      this.urlOk := urlOk;
      this.liveLog := liveLog;
      this.robotMap := robotMap;
      countWindow := new int[Metrics.Buckets](_ => 0);
      bytesWindow := new int[Metrics.Buckets](_ => 0);
      ws, created, closed, connected := None, 0, {}, false;
      reconnectTimer, backoff := None, InitialBackoff;
      bucketIdx, latencySamples, msgsTotal, samples, notices := 0, [], 0, [], [];
      new;
      Connect();
    }

    /**
     * `connect()`: close the current socket if there is one, then open a new
     * one; when the address is bad, show a toast and mark the session
     * disconnected without arming a retry.
     */
    method Connect()
      requires Valid()
      modifies this`ws, this`created, this`closed, this`connected, this`notices
      ensures Valid()
      ensures AfterConnect(old(ws), old(created), old(closed), old(connected), old(notices))
    {
      if ws.Some? {
        closed := closed + {ws.value};
      }
      if !urlOk {
        notices := notices + ["Bad WS URL"];
        connected := false;
        return;
      }
      ws := Some(created);
      created := created + 1;
    }

    /** `onopen`: connected, and the backoff starts over. */
    method OnOpen()
      requires Valid()
      modifies this`connected, this`backoff
      ensures Valid()
      ensures connected && backoff == InitialBackoff
    {
      connected := true;
      backoff := InitialBackoff;
    }

    /** `scheduleReconnect()`: arm a retry for the current backoff unless one is pending. */
    method ScheduleReconnect()
      requires Valid()
      modifies this`reconnectTimer
      ensures Valid()
      ensures reconnectTimer == if old(reconnectTimer).Some? then old(reconnectTimer) else Some(backoff)
    {
      if reconnectTimer.Some? {
        return;
      }
      reconnectTimer := Some(backoff);
    }

    /** `onclose`: disconnected, and a retry is scheduled. */
    method OnClose()
      requires Valid()
      modifies this`connected, this`reconnectTimer
      ensures Valid()
      ensures !connected
      ensures reconnectTimer == if old(reconnectTimer).Some? then old(reconnectTimer) else Some(backoff)
    {
      connected := false;
      ScheduleReconnect();
    }

    /** `onerror`: disconnected, a toast, and a retry is scheduled. */
    method OnError()
      requires Valid()
      modifies this`connected, this`notices, this`reconnectTimer
      ensures Valid()
      ensures !connected && notices == old(notices) + ["WebSocket error"]
      ensures reconnectTimer == if old(reconnectTimer).Some? then old(reconnectTimer) else Some(backoff)
    {
      connected := false;
      notices := notices + ["WebSocket error"];
      ScheduleReconnect();
    }

    /** The retry timer fires: it is cleared, the backoff doubles up to the cap, and `connect()` runs. */
    method TimerFire()
      requires Valid() && reconnectTimer.Some?
      modifies this`reconnectTimer, this`backoff, this`ws, this`created, this`closed, this`connected, this`notices
      ensures Valid()
      ensures reconnectTimer == None
      ensures backoff == NextBackoff(old(backoff))
      ensures AfterConnect(old(ws), old(created), old(closed), old(connected), old(notices))
    {
      reconnectTimer := None;
      BackoffStepClosed(backoff);
      backoff := Numbers.Min(backoff * 2, BackoffMax);
      Connect();
    }

    /** The reconnect button: the backoff starts over and `connect()` runs at once; a pending retry stays armed. */
    method ManualReconnect()
      requires Valid()
      modifies this`backoff, this`ws, this`created, this`closed, this`connected, this`notices
      ensures Valid()
      ensures backoff == InitialBackoff && reconnectTimer == old(reconnectTimer)
      ensures AfterConnect(old(ws), old(created), old(closed), old(connected), old(notices))
    {
      backoff := InitialBackoff;
      Connect();
    }

    /** The latency history: append, dropping the oldest entry beyond 2000. */
    method PushLatency(latency: int)
      requires Valid() && latency >= 0
      modifies this`latencySamples
      ensures Valid()
      ensures latencySamples == Fifo.Newest(old(latencySamples) + [latency], LatencyCap)
    {
      Fifo.PushShiftIsNewest(latencySamples, latency, LatencyCap);
      latencySamples := latencySamples + [latency];
      if |latencySamples| > LatencyCap {
        latencySamples := latencySamples[1..];
      }
    }

    /** One message of `size` bytes lands in the current bucket of both windows. */
    method CountInBucket(size: int)
      requires Valid()
      modifies countWindow, bytesWindow
      ensures Valid()
      ensures countWindow[..] == old(countWindow[..])[bucketIdx := old(countWindow[bucketIdx]) + 1]
      ensures bytesWindow[..] == old(bytesWindow[..])[bucketIdx := old(bytesWindow[bucketIdx]) + size]
      ensures Metrics.Sum(countWindow[..]) == Metrics.Sum(old(countWindow[..])) + 1
    {
      Metrics.SumAddAt(countWindow[..], bucketIdx, 1);
      countWindow[bucketIdx] := countWindow[bucketIdx] + 1;
      bytesWindow[bucketIdx] := bytesWindow[bucketIdx] + size;
    }

    /** `pushSample`: append to the ledger, dropping the oldest row beyond 1000. */
    method PushSample(s: Sample)
      requires Valid() && WellFormed(s)
      modifies this`samples
      ensures Valid()
      ensures samples == Fifo.Newest(old(samples) + [s], SampleCap)
    {
      Fifo.PushShiftIsNewest(samples, s, SampleCap);
      samples := samples + [s];
      if |samples| > SampleCap {
        samples := samples[1..];
      }
    }

    /**
     * What a `msg` frame with text `text`, receive time `recv` and size
     * `size` does to the session, relative to the state before it.
     */
    ghost predicate ChatterRecorded(text: string, recv: int, size: int, oldMsgs: nat, oldLatencies: seq<int>,
                                    oldSamples: seq<Sample>, oldCounts: seq<int>, oldBytes: seq<int>, oldLines: seq<string>)
      requires |oldCounts| == |oldBytes| == Metrics.Buckets && bucketIdx < Metrics.Buckets
      reads this, countWindow, bytesWindow, liveLog
    {
      var t := ParseTrailer(text);
      && msgsTotal == oldMsgs + 1
      && latencySamples == (if t.sendMs.Some?
                            then Fifo.Newest(oldLatencies + [Latency(recv, t.sendMs.value)], LatencyCap)
                            else oldLatencies)
      && countWindow[..] == oldCounts[bucketIdx := oldCounts[bucketIdx] + 1]
      && bytesWindow[..] == oldBytes[bucketIdx := oldBytes[bucketIdx] + size]
      && Metrics.Sum(countWindow[..]) == Metrics.Sum(oldCounts) + 1
      && liveLog.lines == Fifo.Newest(oldLines + [text], LiveLogComponent.MaxLines)
      && samples == (if t.seqNum.Some? && t.sendMs.Some?
                     then Fifo.Newest(oldSamples + [Sample(t.seqNum.value, t.sendMs.value, recv,
                                                           Latency(recv, t.sendMs.value), size, text)], SampleCap)
                     else oldSamples)
    }

    /**
     * The `msg` branch of `onmessage`. The message is counted in the current
     * bucket of both windows whether or not its trailer parsed; its latency is
     * recorded whenever the send stamp is numeric; its text goes to the live
     * log; it enters the ledger when both trailer fields are numeric.
     */
    method OnChatter(frame: Frame, nowMs: int)
      requires Valid() && IsKind(frame, "msg")
      modifies this`msgsTotal, this`latencySamples, this`samples, countWindow, bytesWindow, liveLog
      ensures Valid()
      ensures ChatterRecorded(frame.data, RecvMs(frame, nowMs), SizeOf(frame), old(msgsTotal), old(latencySamples),
                              old(samples), old(countWindow[..]), old(bytesWindow[..]), old(liveLog.lines))
      ensures liveLog.filter == old(liveLog.filter) && liveLog.scrollTop == old(liveLog.scrollTop)
    {
      msgsTotal := msgsTotal + 1;
      var text, recvMs, size := frame.data, RecvMs(frame, nowMs), SizeOf(frame);
      RecordTrailer(text, recvMs, size);
      CountInBucket(size);
      liveLog.AddLine(text);
    }

    /** The latency and ledger half of the `msg` branch, driven by the parsed trailer. */
    method RecordTrailer(text: string, recvMs: int, size: int)
      requires Valid()
      modifies this`latencySamples, this`samples
      ensures Valid()
      ensures var t := ParseTrailer(text);
        && latencySamples == (if t.sendMs.Some?
                              then Fifo.Newest(old(latencySamples) + [Latency(recvMs, t.sendMs.value)], LatencyCap)
                              else old(latencySamples))
        && samples == (if t.seqNum.Some? && t.sendMs.Some?
                       then Fifo.Newest(old(samples) + [Sample(t.seqNum.value, t.sendMs.value, recvMs,
                                                               Latency(recvMs, t.sendMs.value), size, text)], SampleCap)
                       else old(samples))
    {
      var t := ParseTrailer(text);
      if t.sendMs.Some? {
        PushLatency(Latency(recvMs, t.sendMs.value));
      }
      if t.seqNum.Some? && t.sendMs.Some? {
        PushSample(Sample(t.seqNum.value, t.sendMs.value, recvMs, Latency(recvMs, t.sendMs.value), size, text));
      }
    }

    /**
     * `onmessage`. A frame that failed to parse shows a toast. A `status`
     * frame, or one of an unknown type, changes nothing. A `robot` frame only
     * moves the map; a `msg` frame is handled by `OnChatter`.
     */
    method OnMessage(frame: Frame, nowMs: int)
      requires Valid()
      modifies this`msgsTotal, this`latencySamples, this`samples, this`notices, countWindow, bytesWindow, liveLog, robotMap
      ensures Valid()
      ensures notices == if frame.Unparseable? then old(notices) + ["JSON parse error"] else old(notices)
      ensures !IsKind(frame, "msg") ==>
        && msgsTotal == old(msgsTotal) && latencySamples == old(latencySamples) && samples == old(samples)
        && unchanged(countWindow, bytesWindow, liveLog)
      ensures !IsKind(frame, "robot") ==> unchanged(robotMap)
      ensures IsKind(frame, "robot") ==>
        robotMap.points == RobotMapComponent.AddPointTo(old(robotMap.points), RobotMapComponent.Pt(frame.x, frame.y, RecvMs(frame, nowMs)))
      ensures IsKind(frame, "msg") ==>
        && ChatterRecorded(frame.data, RecvMs(frame, nowMs), SizeOf(frame), old(msgsTotal), old(latencySamples),
                           old(samples), old(countWindow[..]), old(bytesWindow[..]), old(liveLog.lines))
        && liveLog.filter == old(liveLog.filter) && liveLog.scrollTop == old(liveLog.scrollTop)
    {
      if frame.Unparseable? {
        notices := notices + ["JSON parse error"];
        return;
      }
      if frame.kind == "status" {
        return;
      }
      if frame.kind == "msg" {
        OnChatter(frame, nowMs);
      }
      if frame.kind == "robot" {
        robotMap.AddPoint(frame.x, frame.y, RecvMs(frame, nowMs));
      }
    }

    /**
     * The one-second tick: the cursor moves on, the bucket it lands on is
     * emptied in both windows (the other 29 keep their counts), and the
     * aggregates are read from the windows and a sorted copy of the history.
     */
    method Tick() returns (snap: Snapshot)
      requires Valid()
      modifies this`bucketIdx, countWindow, bytesWindow
      ensures Valid()
      ensures bucketIdx == (old(bucketIdx) + 1) % Metrics.Buckets
      ensures countWindow[..] == Metrics.Advance(old(countWindow[..]), old(bucketIdx))
      ensures bytesWindow[..] == Metrics.Advance(old(bytesWindow[..]), old(bucketIdx))
      ensures Metrics.Sum(countWindow[..]) == Metrics.Sum(old(countWindow[..])) - old(countWindow[..])[bucketIdx]
      ensures snap == Snapshot(Metrics.Throughput(countWindow[..]), Metrics.Bandwidth(bytesWindow[..]),
                               Metrics.P95(latencySamples), countWindow[..])
      ensures snap.tps >= 0.0
    {
      bucketIdx := (bucketIdx + 1) % Metrics.Buckets;
      Metrics.SumZeroAt(countWindow[..], bucketIdx);
      countWindow[bucketIdx] := 0;
      bytesWindow[bucketIdx] := 0;
      Metrics.ThroughputBounds(countWindow[..]);
      var tps := Metrics.Throughput(countWindow[..]);
      var kbps := Metrics.Bandwidth(bytesWindow[..]);
      snap := Snapshot(tps, kbps, Metrics.P95(latencySamples), countWindow[..]);
    }
  }

  /**
   * Four failed attempts in a row from a fresh page: the retries are armed
   * with 1000, 2000, 4000, 8000 and then 10000 ms, and the next successful
   * open puts the backoff back to 1000.
   */
  method BackoffScenario(liveLog: LiveLogComponent.LiveLog, robotMap: RobotMapComponent.RobotMap)
    returns (delays: seq<int>, afterOpen: int)
    requires liveLog.Valid() && robotMap.Valid()
    ensures delays == [1000, 2000, 4000, 8000, 10_000] && afterOpen == 1000
  {
    var s := new Session(true, liveLog, robotMap);
    delays := [];
    var k := 0;
    while k < 4
      invariant 0 <= k <= 4 && s.Valid() && s.reconnectTimer == None
      invariant s.backoff == BackoffAfter(k)
      invariant |delays| == k && forall i :: 0 <= i < k ==> delays[i] == BackoffAfter(i)
    {
      s.OnClose();
      delays := delays + [s.reconnectTimer.value];
      s.TimerFire();
      k := k + 1;
    }
    s.OnClose();
    delays := delays + [s.reconnectTimer.value];
    s.OnOpen();
    afterOpen := s.backoff;
    BackoffSchedule();
  }

  /**
   * The reconnect button does not cancel a pending retry: after a drop, a
   * manual reconnect opens socket 1, and when the old timer fires it closes
   * that socket, opens socket 2 and doubles the backoff the button had reset.
   */
  method ManualReconnectRace(liveLog: LiveLogComponent.LiveLog, robotMap: RobotMapComponent.RobotMap)
    returns (manualSocket: Option<nat>, finalSocket: Option<nat>, manualClosed: bool, finalBackoff: int)
    requires liveLog.Valid() && robotMap.Valid()
    ensures manualSocket == Some(1) && finalSocket == Some(2) && manualClosed && finalBackoff == 2000
  {
    var s := new Session(true, liveLog, robotMap);
    s.OnClose();
    s.ManualReconnect();
    manualSocket := s.ws;
    s.TimerFire();
    finalSocket := s.ws;
    manualClosed := 1 in s.closed;
    finalBackoff := s.backoff;
  }

  /**
   * A manual reconnect can start a cycle of retries on sockets that are
   * working. The button closes live socket 0 and opens socket 1. When
   * socket 0's `onclose` arrives a retry is armed, and the timer closes
   * socket 1 and opens socket 2. Socket 1's `onclose` then arms the next
   * retry, which closes socket 2 and opens socket 3, although every socket
   * opened successfully. No retry is pending then, but socket 2's own late
   * `onclose` would start the next round.
   */
  method ManualReconnectLoop(liveLog: LiveLogComponent.LiveLog, robotMap: RobotMapComponent.RobotMap)
    returns (finalSocket: Option<nat>, closedSockets: set<nat>, armed: bool)
    requires liveLog.Valid() && robotMap.Valid()
    ensures finalSocket == Some(3) && closedSockets == {0, 1, 2} && !armed
  {
    var s := new Session(true, liveLog, robotMap);
    assert s.ws == Some(0) && s.created == 1 && s.closed == {};
    s.OnOpen();
    s.ManualReconnect();
    assert s.ws == Some(1) && s.created == 2 && s.closed == {0};
    s.OnOpen();
    s.OnClose();
    assert s.reconnectTimer.Some?;
    s.TimerFire();
    assert s.ws == Some(2) && s.created == 3 && s.closed == {0, 1};
    s.OnOpen();
    s.OnClose();
    assert s.reconnectTimer.Some?;
    s.TimerFire();
    finalSocket, closedSockets, armed := s.ws, s.closed, s.reconnectTimer.Some?;
  }
}
