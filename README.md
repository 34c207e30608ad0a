# ROS 2 WebSocket dashboard — a Dafny model

This project models the streaming and metrics core of a small ROS 2
monitoring stack. The stack has two parts.

A Rust bridge subscribes to the `/chatter` and `/robot_pose` topics. It
counts the chatter it receives and rebroadcasts each message as JSON over a
token-protected WebSocket.

A browser dashboard consumes that stream. It:

- keeps the socket alive with exponential backoff;
- splits each chatter payload of the form `"<text> |<seq>|<send-ms>"`;
- keeps 30 one-second buckets of message and byte counts;
- keeps a latency history for a 95th-percentile read-out;
- keeps a 1000-row sample ledger;
- feeds a 500-line virtualised live log and a 30-second robot trajectory.

The model has one module per part:

- `Dashboard` (dashboard.dfy): the `Session` class. This is the closure state of `boot`, with one method per event:
  - `Connect`, `OnOpen`, `OnClose`, `OnError`;
  - `ScheduleReconnect`, `TimerFire`, `ManualReconnect`;
  - `OnMessage`, with `OnChatter` for `msg` frames;
  - `Tick`.

  The two count windows are `array<int>` fields updated in place. The histories are `seq` fields that grow by push and shrink by shift. `Session.Valid()` keeps every message count non-negative, because counts only rise by 1 or are reset to 0. The byte window has no such bound: a frame's `size_bytes` is added as it is, so a negative one lowers the total.
- `LiveLogComponent` (live_log.dfy): the `LiveLog` element as a class (`lines`, `filter`, `scrollTop`), plus the pure filter and windowing arithmetic of `render`.
- `RobotMapComponent` (robot_map.dfy): the `RobotMap` element's `points` field and the `addPoint` time cutoff.
- `Bridge` (bridge.dfy):
  - `check_auth`;
  - the `Stats` counters as a class whose `u64` wrap-around is written out;
  - the window tick with its pop-front loop;
  - the throughput average;
  - robot-pose field defaulting.
- Support modules:
  - `Metrics`: window sums, the ring rotation, throughput, the sorted copy and p95.
  - `Fifo`: what a push-then-shift buffer keeps.
  - `Text`: JavaScript `split('|')`, `includes`, UTF-16 and UTF-8 lengths.
  - `Numbers`: the JavaScript `Number()` subset for decimal integers.
  - `Wrappers`: `Option`.

Several inputs become parameters:

- The clock: `nowMs` in `Session.OnMessage`, `now` in the bridge methods.
- Whether the WebSocket address is valid: the constant `Session.urlOk`.
- The result of `JSON.parse` / `serde_json::from_str`: `Dashboard.Frame` and `Bridge.Json`.

Timers are not scheduled by the model. An armed timer is the field `reconnectTimer` (holding its delay), and its expiry is the method `TimerFire`. Socket events are the methods `OnOpen`, `OnClose`, `OnError` and `OnMessage`, which the environment may call in any order.

Four behaviours of the code are easy to misread:

- The reconnect button resets the backoff and connects at once. It does not cancel a retry that is already armed. `Dashboard.ManualReconnectRace` shows the consequence: when the old timer fires, it closes the manually opened socket, opens another one and doubles the backoff.
- The sequence number and the send stamp are parsed independently. A payload can therefore yield a latency sample without a ledger row.
- `Number("")` is 0, so empty trailing pieces count as numeric (`Dashboard.EmptyTrailingPieces`).
- `onclose` does not check which socket closed. A manual reconnect closes a live socket, whose late `onclose` arms a retry that closes the next live socket, and so on (`Dashboard.ManualReconnectLoop`).

## Model

| member | source | states |
|---|---|---|
| Dashboard.Session.constructor | web/src/main.ts:40-62 | The windows start as 30 zeros, the cursor at 0, backoff 1000, no timer, empty histories; then one `connect` runs |
| Dashboard.Session.Connect | web/src/main.ts:82-85 | The previous socket, if any, is closed. With a valid address the next socket becomes current. With a bad address the socket is left as it was, the session is disconnected, "Bad WS URL" is shown and no retry is armed |
| Dashboard.Session.OnOpen | web/src/main.ts:87 | Connected, the backoff returns to 1000, and Valid() is kept |
| Dashboard.Session.OnClose | web/src/main.ts:88 | Disconnected, and a retry is armed with the current backoff unless one is already pending |
| Dashboard.Session.OnError | web/src/main.ts:89 | Disconnected, "WebSocket error" is shown, and a retry is armed unless one is pending |
| Dashboard.Session.ScheduleReconnect | web/src/main.ts:123-125 | A pending timer is kept as it is; otherwise a timer is armed with the current backoff. At most one timer exists |
| Dashboard.Session.TimerFire | web/src/main.ts:125-129 | The timer is cleared, the backoff becomes min(2·backoff, 10000), then `connect` runs. Valid() keeps the backoff within {1000, 2000, 4000, 8000, 10000} |
| Dashboard.Session.ManualReconnect | web/src/main.ts:161 | The backoff becomes 1000 and `connect` runs; a pending timer is left unchanged |
| Dashboard.Session.OnMessage | web/src/main.ts:90-120 | An unparseable frame only shows "JSON parse error". `status` and unknown types change nothing. `robot` frames touch only the map. `msg` frames behave as in OnChatter |
| Dashboard.Session.OnChatter | web/src/main.ts:95-111 | `msgsTotal` rises by 1. Both windows' current bucket rise (by 1 and by size), and the count total rises by exactly 1. The log gets the text, keeping the newest 500. The latency history gets max(0, recv − send) whenever the send stamp is numeric, keeping the newest 2000. The ledger gets a row only when both trailer fields are numeric, keeping the newest 1000 |
| Dashboard.Session.RecordTrailer | web/src/main.ts:98-103 | The latency and ledger updates are driven by `ParseTrailer`, each guarded by its own "numeric" condition |
| Dashboard.Session.PushLatency | web/src/main.ts:103 | The latency history becomes the newest 2000 of the old history plus the new entry |
| Dashboard.Session.CountInBucket | web/src/main.ts:104-106 | Only the current bucket of each window changes, the count total rises by exactly 1, and Valid() (non-negative counts) is kept |
| Dashboard.Session.PushSample | web/src/main.ts:66 | The ledger becomes the newest 1000 of the old ledger plus the row |
| Dashboard.Session.Tick | web/src/main.ts:133-153 | The cursor moves to (i+1) mod 30. Only the bucket it lands on is zeroed in each window, so the total drops by exactly that bucket. The snapshot is sum/30, (bytes/1024)/30, the p95 of a sorted copy ("--" when empty) and the chart data; its tps is never negative. The latency history is untouched |
| Dashboard.ParseTrailer | web/src/main.ts:98-100 | With fewer than two bars in the text both trailer fields are absent. The publisher round trip is PublisherPayloadParses, the empty-piece case EmptyTrailingPieces |
| Dashboard.PublisherPayloadParses | web/src/main.ts:98-100 | A payload `"<text> \|<i>\|<stamp>"`, whatever the text, parses back to seq = i and sendMs = stamp |
| Dashboard.GeneralTrailer | web/src/main.ts:98-100 | For any text with two or more bars, the fields are `Number()` of the last two pieces, whatever precedes them |
| Dashboard.FewerThanTwoBars | web/src/main.ts:99-100 | With fewer than two bars (fewer than three pieces), both trailer fields are absent |
| Dashboard.EmptyTrailingPieces | web/src/main.ts:100 | For any text, `"<text>\|\|"` yields seq 0 and sendMs 0, because `Number("")` is 0 |
| Dashboard.PublisherPayload | crates/ros2_demo/src/bin/minimal_pub.rs:25 | The chatter payload `"<text> \|<i>\|<stamp>"`. That the dashboard reads i and stamp back from it is PublisherPayloadParses |
| Dashboard.Latency | web/src/main.ts:102 | The latency is never negative, and it is either 0 or recv − send |
| Dashboard.RecvMs | web/src/main.ts:101 | A truthy `recv_ts` yields its own stamp in milliseconds, so a positive stamp under one millisecond gives 0. An absent or falsy one yields the clock reading. Line 114 reads robot stamps by the same rule |
| Dashboard.SizeOf | web/src/main.ts:105 | A non-zero `size_bytes` is taken as it is. Otherwise the size is the UTF-16 length of the text, between \|text\| and 2\|text\| |
| Dashboard.NextBackoff | web/src/main.ts:127 | min(2·b, 10000) never exceeds 10000. Closure over the five steps is BackoffStepClosed, the sequence from 1000 is BackoffSchedule |
| Dashboard.BackoffStepClosed | web/src/main.ts:127 | One doubling step keeps the backoff among the five steps, within [1000, 10000] |
| Dashboard.BackoffClosedForm | web/src/main.ts:42-43 | After k firings the backoff is min(1000·2^k, 10000), always one of the five steps |
| Dashboard.BackoffSchedule | web/src/main.ts:127 | From 1000 the values are 2000, 4000, 8000, 10000, 10000 |
| Dashboard.BackoffScenario | web/src/main.ts:87-88 | Five drops in a row, starting fresh, arm retries of 1000, 2000, 4000, 8000 and 10000 ms. The next open resets the backoff to 1000 |
| Dashboard.ManualReconnectRace | web/src/main.ts:124-128 | A retry armed before a manual reconnect still fires. It closes socket 1, opens socket 2 and leaves the backoff at 2000 |
| Dashboard.ManualReconnectLoop | web/src/main.ts:82-88 | After a manual reconnect, each live socket's late `onclose` arms a retry that closes the next live socket: two rounds close sockets 0, 1 and 2 and leave socket 3 current |
| LiveLogComponent.LiveLog.constructor | web/src/ui/live-log.ts:20-22 | The element starts with no lines, an empty filter and scroll position 0 |
| LiveLogComponent.LiveLog.AddLine | web/src/ui/live-log.ts:26-28 | The buffer becomes the newest 500 of the old lines plus the new one |
| LiveLogComponent.LiveLog.Clear | web/src/ui/live-log.ts:35 | `lines` becomes empty; the filter is not in the frame, so it is untouched |
| LiveLogComponent.LiveLog.SetFilter | web/src/ui/live-log.ts:24 | Only the filter changes, and Valid() is kept |
| LiveLogComponent.LiveLog.OnScroll | web/src/ui/live-log.ts:41-44 | Only the scroll position changes, and Valid() is kept |
| LiveLogComponent.Matching | web/src/ui/live-log.ts:47 | The filtered view is never longer than the buffer |
| LiveLogComponent.View | web/src/ui/live-log.ts:47 | The view is never longer than the buffer. An empty filter shows the whole buffer, which ViewIsMatching equates with filtering; membership is MatchingMembers |
| LiveLogComponent.MatchingMembers | web/src/ui/live-log.ts:47 | A line is in the view exactly when it is in the buffer and includes the filter |
| LiveLogComponent.MatchingAppend | web/src/ui/live-log.ts:47 | Filtering preserves order: it distributes over concatenation |
| LiveLogComponent.MatchingEmpty | web/src/ui/live-log.ts:47 | Every line includes "", so filtering by "" returns the buffer |
| LiveLogComponent.ViewIsMatching | web/src/ui/live-log.ts:47 | The empty-filter shortcut gives the same view as filtering |
| LiveLogComponent.ComputeLayout | web/src/ui/live-log.ts:50-57 | start ≥ 0, end ≤ the view length and the bottom spacer ≥ 0. The exact values are RenderedRows, the spacer sum SpacersAddUp |
| LiveLogComponent.Slice | web/src/ui/live-log.ts:63 | `slice` with both bounds clamped to the length, so never longer than its input. RenderedRows shows the run drawn is view[start..end] |
| LiveLogComponent.RenderView | web/src/ui/live-log.ts:56-64 | Top spacer, rows and bottom spacer of the layout. Bounds and contents are RenderedRows, SpacersAddUp and VisibleRowsDrawn |
| LiveLogComponent.LiveLog.Render | web/src/ui/live-log.ts:46-67 | The element draws RenderView of the filtered buffer at its scroll position |
| LiveLogComponent.RenderedRows | web/src/ui/live-log.ts:50-54 | visibleCount is 47. start = max(0, ⌊scrollTop/18⌋ − 10) and end = min(\|view\|, start + 47). The rows drawn are exactly view[start..end], at most 47 (none when start lies past the end) |
| LiveLogComponent.SpacersAddUp | web/src/ui/live-log.ts:56-57 | Both spacers are non-negative. When start ≤ \|view\|, top + rows·18 + bottom = \|view\|·18 |
| LiveLogComponent.VisibleRowsDrawn | web/src/ui/live-log.ts:50-54 | Every row that intersects the 480-pixel viewport lies in [start, end) |
| RobotMapComponent.RobotMap.constructor | web/src/ui/robot-map.ts:13 | The trail starts empty |
| RobotMapComponent.RobotMap.AddPoint | web/src/ui/robot-map.ts:16-19 | The trail becomes KeepSince(old + [p], ts − 30000) and keeps Valid(): every point lies within 30 s of the last one |
| RobotMapComponent.RobotMap.Clear | web/src/ui/robot-map.ts:25 | The trail becomes empty |
| RobotMapComponent.KeepSince | web/src/ui/robot-map.ts:19 | The filter never lengthens the trail |
| RobotMapComponent.AddPointTo | web/src/ui/robot-map.ts:16-19 | Push then filter at ts − 30000. That the new point stays last is AddPointKeepsInserted; in-order replay is ReplayInOrder |
| RobotMapComponent.KeepSinceMembers | web/src/ui/robot-map.ts:19 | A point survives exactly when it was present and t ≥ cutoff |
| RobotMapComponent.KeepSinceAppend | web/src/ui/robot-map.ts:19 | Survivors keep their relative order |
| RobotMapComponent.AddPointKeepsInserted | web/src/ui/robot-map.ts:17-19 | The inserted point is kept and is last. Every kept point has t ≥ ts − 30000, where ts is the inserted time rather than the newest seen |
| RobotMapComponent.KeepSinceTwice | web/src/ui/robot-map.ts:19 | Filtering at cutoff c1 and then at a later c2 equals filtering at c2 |
| RobotMapComponent.ReplayInOrder | web/src/ui/robot-map.ts:16-19 | Poses inserted in time order leave exactly those within 30 s of the newest |
| RobotMapComponent.KeepSinceSplit | web/src/ui/robot-map.ts:19 | On points ordered around the cutoff at index j, the filter keeps exactly pts[j..] |
| RobotMapComponent.FortyOneSeconds | web/src/ui/robot-map.ts:16-19 | Inserting t = 0, 1000, …, 40000 leaves exactly the 31 points with t ≥ 10000 |
| Fifo.PushShift | web/src/main.ts:66 | Push, then one shift when over capacity; the same step as line 103 and live-log.ts:27-28. That it keeps the newest `cap` entries is PushShiftIsNewest |
| Fifo.PushShiftIsNewest | web/src/main.ts:66 | Push then one shift, on a buffer within capacity, keeps the newest cap entries. The new entry is last and only the single oldest entry is evicted, and only when the buffer was full |
| Fifo.NewestAppend | web/src/main.ts:103 | Trimming before an append loses nothing beyond trimming after it |
| Fifo.PushAllIsNewest | web/src/ui/live-log.ts:26-28 | Any run of pushes from empty leaves exactly the newest cap entries pushed, in order |
| Metrics.Sum | web/src/main.ts:138 | `reduce((a,b)=>a+b,0)`. Its laws are SumAppend, SumZeroAt, SumAddAt and SumBounds |
| Metrics.SumAppend | web/src/main.ts:138 | The sum distributes over concatenation |
| Metrics.SumZeroAt | web/src/main.ts:135 | Zeroing bucket i removes exactly its count from the total |
| Metrics.SumAddAt | web/src/main.ts:104 | Adding d to one bucket adds exactly d to the total |
| Metrics.SumBounds | web/src/main.ts:138 | Counts in [0, m] sum to a value in [0, n·m] |
| Metrics.SumConstant | web/src/main.ts:138 | n buckets of c sum to n·c |
| Metrics.Throughput | web/src/main.ts:138-139 | Messages per second over the window, total/30; HalfBusyWindow evaluates it |
| Metrics.Peak | web/src/main.ts:138-139 | The busiest bucket: non-negative and at least every bucket |
| Metrics.ThroughputBounds | web/src/main.ts:138-139 | A window of non-negative counts has a rate between 0 and its busiest bucket |
| Metrics.Bandwidth | web/src/main.ts:140-141 | Kilobytes per second, (total/1024)/30; HalfBusyWindow evaluates it |
| Metrics.HalfBusyWindow | web/src/main.ts:138-141 | Fifteen seconds of 2 messages and 100 bytes give tps 1.0 and kbps 1500/1024/30 |
| Metrics.Advance | web/src/main.ts:134-136 | One tick keeps 30 buckets. Which buckets it clears is AdvanceByCleared, how long a bucket lives WindowLifetime |
| Metrics.AdvanceBy | web/src/main.ts:134-136 | Repeated ticks keep 30 buckets |
| Metrics.AdvanceByCleared | web/src/main.ts:134-136 | After k ≤ 30 quiet ticks, exactly the k buckets after the cursor are empty and every other bucket keeps its count |
| Metrics.RingStep | web/src/main.ts:134 | The modular-arithmetic facts of one cursor step |
| Metrics.WindowLifetime | web/src/main.ts:134-136 | The bucket being filled survives 29 ticks; after 30 ticks the window is all zeros |
| Metrics.Insert | web/src/main.ts:148 | Inserting into the copy adds exactly one element to its multiset |
| Metrics.SortAscending | web/src/main.ts:148 | The sorted copy is a permutation of the history |
| Metrics.InsertSorted | web/src/main.ts:148 | Insertion keeps a sorted sequence sorted |
| Metrics.SortSorted | web/src/main.ts:148 | The copy is sorted ascending |
| Metrics.SortOfSorted | web/src/main.ts:148 | A sorted history is its own sorted copy |
| Metrics.InsertCounts | web/src/main.ts:148 | Insertion raises the ≤v and <v counts by one exactly when x qualifies |
| Metrics.SortCounts | web/src/main.ts:148 | Sorting keeps the number of entries ≤ v and < v |
| Metrics.SortedRank | web/src/main.ts:149-150 | In a sorted sequence, entry k has at least k+1 entries ≤ it and at most k entries < it |
| Metrics.NoneBelow | web/src/main.ts:149-150 | With nothing smaller than v, the count below v is 0 |
| Metrics.P95Index | web/src/main.ts:149 | min(n−1, ⌊95(n−1)/100⌋) is a valid index for n > 0 |
| Metrics.P95 | web/src/main.ts:147-153 | The read-out is absent exactly when there are no samples; otherwise it is one of the samples |
| Metrics.P95Rank | web/src/main.ts:147-150 | In any order, the p95 value has at least idx+1 samples ≤ it and at most idx samples < it (nearest rank) |
| Metrics.P95OfSorted | web/src/main.ts:148-150 | For a sorted history the p95 is the entry at idx |
| Metrics.P95Of100 | web/src/main.ts:149 | For latencies 10, 20, …, 1000 the index is 94 and the read-out is 950 |
| Text.LastIndexOf | web/src/main.ts:98 | The result is −1 or the position of the last bar |
| Text.Split | web/src/main.ts:98 | `split('\|')` always yields at least one piece |
| Text.LastBar | web/src/main.ts:98 | In a + "\|" + b with no bar in b, the last bar is at index \|a\| |
| Text.SplitLast | web/src/main.ts:98 | Splitting a + "\|" + b is the pieces of a followed by b |
| Text.JoinSplit | web/src/main.ts:98 | Rejoining the pieces with "\|" restores the text; no piece contains a bar |
| Text.SplitJoin | web/src/main.ts:98 | Bar-free pieces survive a join followed by a split |
| Text.OccurrencesAppend | web/src/main.ts:98 | Occurrence counts add over concatenation |
| Text.NoOccurrences | web/src/main.ts:98 | A text without c has no occurrences of c |
| Text.SplitCount | web/src/main.ts:98-100 | The number of pieces is the number of bars plus one |
| Text.ContainsEmpty | web/src/ui/live-log.ts:47 | Every string includes "" |
| Text.ContainsAt | web/src/ui/live-log.ts:47 | A string that has f at some position includes f |
| Text.ContainsIndex | web/src/ui/live-log.ts:47 | Conversely, a string that includes f has a slice equal to f: with ContainsAt, `includes` holds exactly when f occurs at some position |
| Text.Contains | web/src/ui/live-log.ts:47 | `includes`: a string includes only filters no longer than itself. "" is included (ContainsEmpty), and f is included exactly when it occurs at some position (ContainsAt, ContainsIndex) |
| Text.Utf16Len | web/src/main.ts:105 | `text.length` lies in [\|s\|, 2\|s\|] |
| Text.Utf8Len | crates/ros2_ws_bridge/src/main.rs:274 | `data.len()` lies in [\|s\|, 4\|s\|] |
| Text.AsciiLengths | crates/ros2_ws_bridge/src/main.rs:284 | For ASCII text the browser's length and the bridge's byte count agree |
| Numbers.IsJsSpace | web/src/main.ts:100 | The WhiteSpace and LineTerminator characters that `Number()` strips from both ends |
| Numbers.TrimStart | web/src/main.ts:100 | Trimming never lengthens the token |
| Numbers.TrimEnd | web/src/main.ts:100 | Trimming never lengthens the token |
| Numbers.Trim | web/src/main.ts:100 | Both ends trimmed, never longer than the token. A digit string is its own trim (TrimDigits) |
| Numbers.TrimStartDrops | web/src/main.ts:100 | TrimStart removes exactly the leading run of JavaScript whitespace: what it drops is all whitespace and what remains does not start with any |
| Numbers.TrimEndDrops | web/src/main.ts:100 | TrimEnd removes exactly the trailing run of JavaScript whitespace, in the same sense |
| Numbers.TrimStrips | web/src/main.ts:100 | Every token is whitespace, then its trim, then whitespace, and the trim neither starts nor ends with whitespace |
| Numbers.ParsePadded | web/src/main.ts:100 | `Number(" 12 ")` is 12: surrounding whitespace is ignored |
| Numbers.Max | web/src/ui/live-log.ts:52-57 | `Math.max` on integers; also the latency clamp at main.ts:102 |
| Numbers.Min | web/src/main.ts:127 | `Math.min` on integers; also main.ts:149 and live-log.ts:54. The backoff cap is BackoffStepClosed, the index bound P95Index |
| Numbers.DigitChar | crates/ros2_demo/src/bin/minimal_pub.rs:25 | The character is a digit whose value is d |
| Numbers.Decimal | crates/ros2_demo/src/bin/minimal_pub.rs:25 | `{}` formatting of an integer yields digits with no leading zero |
| Numbers.DecimalValue | crates/ros2_demo/src/bin/minimal_pub.rs:25 | The digits read back as n |
| Numbers.TrimDigits | web/src/main.ts:100 | A digit string has no whitespace to trim |
| Numbers.ParseNumber | web/src/main.ts:100 | `Number()` on trimmed sign-and-digit tokens, "" giving 0. Round trips are ParseDecimal and ParseNegativeDecimal |
| Numbers.ParseDecimal | web/src/main.ts:100 | `Number` of a formatted integer is that integer |
| Numbers.ParseNegativeDecimal | web/src/main.ts:100 | `Number("-" + digits)` is the negated value |
| Bridge.WrapAdd | crates/ros2_ws_bridge/src/main.rs:273-275 | `fetch_add` gives a u64 result, equal to the sum when there is no overflow |
| Bridge.WrapSub | crates/ros2_ws_bridge/src/main.rs:252 | `fetch_sub` gives a u64 result, equal to the difference when there is no underflow |
| Bridge.ConnectDisconnect | crates/ros2_ws_bridge/src/main.rs:236-252 | An increment then a decrement, in either order, restores the gauge, even across a wrap |
| Bridge.AsU64 | crates/ros2_ws_bridge/src/main.rs:125 | `now as u64` is always a u64 |
| Bridge.AsU64Truncates | crates/ros2_ws_bridge/src/main.rs:125 | In range, the cast keeps the whole seconds |
| Bridge.StripPrefix | crates/ros2_ws_bridge/src/main.rs:213 | `strip_prefix` succeeds exactly when the prefix matches |
| Bridge.StripPrefixIsConcat | crates/ros2_ws_bridge/src/main.rs:213 | Stripping p from s gives e exactly when s = p + e |
| Bridge.CheckAuth | crates/ros2_ws_bridge/src/main.rs:206-221 | A refusal needs a configured token. The full decision table is AuthDecision, the case-sensitive scheme BearerIsCaseSensitive |
| Bridge.VisibleAscii | crates/ros2_ws_bridge/src/main.rs:212 | `to_str` succeeds exactly on tabs and visible ASCII; AuthDecision uses it to require a sendable token |
| Bridge.AuthDecision | crates/ros2_ws_bridge/src/main.rs:206-221 | Access is granted exactly when: no token is configured; or query `token` equals it; or the `authorization` header is literally "Bearer " + token and the token is visible ASCII. Otherwise the result is AuthError |
| Bridge.BearerIsCaseSensitive | crates/ros2_ws_bridge/src/main.rs:213 | "bearer <token>" is refused |
| Bridge.Stats.constructor | crates/ros2_ws_bridge/src/main.rs:46-54 | All counters are 0 and the window is empty |
| Bridge.Stats.OnChatter | crates/ros2_ws_bridge/src/main.rs:270-286 | msgs_total +1, bytes_total + UTF-8 length and sec_acc +1, all wrapping. The frame has seq 0, ts = recv_ts = now, and size_bytes = UTF-8 length |
| Bridge.Stats.ClientConnected | crates/ros2_ws_bridge/src/main.rs:236 | The client gauge rises by one (wrapping) |
| Bridge.Stats.ClientDisconnected | crates/ros2_ws_bridge/src/main.rs:252 | The client gauge falls by one (wrapping) |
| Bridge.Stats.WindowTick | crates/ros2_ws_bridge/src/main.rs:122-128 | sec_acc is reset to 0. The window becomes the newest 30 of the old window plus (now as u64, old sec_acc). From a valid state only the single oldest entry may go |
| Bridge.DropOldest | crates/ros2_ws_bridge/src/main.rs:126-128 | The pop-front loop leaves exactly the newest cap entries |
| Bridge.CountSum | crates/ros2_ws_bridge/src/main.rs:180 | No entry's count exceeds the window sum; CountSumBound and CountSumConstant bound and evaluate it |
| Bridge.CountSumBound | crates/ros2_ws_bridge/src/main.rs:180 | Counts up to m sum to at most len·m |
| Bridge.WindowThroughput | crates/ros2_ws_bridge/src/main.rs:178-182 | The throughput is non-negative and 0 for an empty window |
| Bridge.ThroughputAtMostPeak | crates/ros2_ws_bridge/src/main.rs:178-182 | The throughput never exceeds the busiest entry |
| Bridge.DivideBound | crates/ros2_ws_bridge/src/main.rs:181 | Division by a positive length preserves the bound |
| Bridge.SteadyThroughput | crates/ros2_ws_bridge/src/main.rs:178-182 | Thirty entries of 10 read as exactly 10.0 |
| Bridge.CountSumConstant | crates/ros2_ws_bridge/src/main.rs:180 | n entries of c sum to n·c |
| Bridge.Get | crates/ros2_ws_bridge/src/main.rs:297-300 | `Value::get` finds a field only on objects that have it |
| Bridge.AsU64Value | crates/ros2_ws_bridge/src/main.rs:297 | `as_u64` succeeds exactly for integers in [0, 2^64) |
| Bridge.AsF64Value | crates/ros2_ws_bridge/src/main.rs:298-300 | `as_f64` succeeds exactly for numbers |
| Bridge.NumberOr | crates/ros2_ws_bridge/src/main.rs:298-300 | For any JSON value and key: a float field is taken as it is, an integer field converted, and a missing or non-numeric field gives 0.0 |
| Bridge.PoseMessage | crates/ros2_ws_bridge/src/main.rs:294-305 | Nothing is sent exactly when the payload is not JSON. A sent frame is typed "robot" with ts = recv_ts = now. For every JSON value each field defaults on its own: seq is the integer when it lies in [0, 2^64) and 0 otherwise; x, y and theta are a float as it is, an integer converted, and 0.0 when missing or not a number |
| Bridge.PoseWellTyped | crates/ros2_ws_bridge/src/main.rs:296-301 | A well-typed pose is forwarded with its own values |
| Bridge.PoseNonObject | crates/ros2_ws_bridge/src/main.rs:297-300 | JSON without the four fields (or not an object) gives seq 0 and coordinates 0 |
| Bridge.PoseIllTyped | crates/ros2_ws_bridge/src/main.rs:297-300 | An example of the per-field rule: a negative or string seq gives 0, an integer x is taken as a float, and null or string coordinates give 0 |

## Left out

- Browser I/O is not modelled:
  - WebSocket construction and delivery, `setTimeout`/`setInterval` scheduling;
  - toast timing and DOM attribute updates (toasts are kept as the `notices` list);
  - the QoS `fetch`, the `filter` input wiring, the `btn-clear` handler (it only calls `LiveLog.Clear`);
  - the CSV download (web/src/main.ts:163-171), which only ever writes the header row.
- `JSON.parse` and `serde_json::from_str` are foreign. Their results are the `Frame` and `Json` datatypes:
  - `Unparseable` also stands for the literal `null`: reading `type` on it throws into the same handler.
  - Frames whose `size_bytes`, `recv_ts`, `x` or `y` are not numbers are outside `Frame`.
  - Dashboard.SizeOf: a fractional `size_bytes` has no `Frame` value, because `sizeBytes` is an integer (the byte window stays integral).
- `buildWsUrl` with `URL`, `parseHash`, `decodeURIComponent` and `localStorage` are not modelled. Whether a socket can be built is the constant `urlOk`.
- Numbers.ParseNumber: models `Number()` only for an optional sign followed by decimal digits, after trimming JavaScript whitespace, with `""` giving 0. Fractions, exponents, hex, binary (`0b`) and octal (`0o`) literals, `Infinity` and NaN results are treated as absent.
- Floating point is not modelled:
  - The floor of `recv_ts * 1000` is taken as the given integer in `recvTsMs`; whether `recv_ts` was truthy is whether that field is present.
  - `Date.now()` is the parameter `nowMs`.
  - `tps` and `kbps` are exact reals; `toFixed` is left out.
  - `Math.floor(0.95 * (n-1))` is the integer quotient 95(n−1)/100.
  - Rust `now_sec`, `{:.3}` formatting and `as_f64` rounding of large integers are left out.
- The liveLog and robotMap elements are assumed present. The `?.` guards that skip them when missing are not modelled.
- Strings are sequences of Unicode scalar values. A text holding a lone UTF-16 surrogate cannot be represented, so `Utf16Len`, `Split` and `Contains` are not modelled for it. For well-formed text, matching scalar values agrees with `includes` matching UTF-16 units.
- `addLine`'s scroll-to-bottom after each update is DOM; its effect reaches the model only through `OnScroll`. Fractional `scrollTop` values are not modelled.
- Canvas drawing, the 30 ms draw throttle and the Lit lifecycle/styles of the UI elements are not modelled.
- The bridge runtime is not modelled: axum routing and CORS, tokio, the broadcast channel and lag handling, the `rclrs` executor, atomic memory ordering, and the Prometheus text body of `/metrics`. The counters are sequential fields.
- HTTP headers are a map from lower-case names to one value each. Repeated headers and duplicate query keys are not modelled.
- Bridge.WindowThroughput: does not model overflow of the `u64` sum of window counts, which could only happen with counts near 2^64.
- Not part of this model:
  - `fake_robot.rs` (float trigonometry and publishing);
  - `minimal_pub.rs`, apart from its payload format;
  - `minimal_sub.rs`;
  - the `fake_robot_state`, `shared` and `bridge` crates;
  - the other UI elements (`status-pill`, `metric-card`, `mini-chart`, `topology`);
  - the import smoke test.
