/**
 * The WebSocket bridge's own logic: the token check in front of the chatter
 * stream, the statistics the ROS callbacks and the once-a-second ticker
 * update, the throughput the metrics endpoint reports, and the defaulting of
 * robot-pose fields. Counters are `u64` atomics in the bridge; here they are
 * sequential fields with the atomics' wrap-around written out.
 */
module Bridge {
  import opened Wrappers
  import Text
  import Fifo

  /** 2^64: every counter is a `u64`. */
  const U64: nat := 0x1_0000_0000_0000_0000
  /** Entries the sliding window keeps. */
  const WindowLen: nat := 30

  /** `fetch_add` on an `AtomicU64`: wraps around on overflow. */
  function WrapAdd(a: nat, b: nat): (r: nat)
    ensures r < U64
    ensures a + b < U64 ==> r == a + b
  {
    (a + b) % U64
  }

  /** `fetch_sub` on an `AtomicU64`: wraps around below zero. */
  function WrapSub(a: nat, b: nat): (r: nat)
    ensures r < U64
    ensures b <= a < U64 ==> r == a - b
  {
    (a - b) % U64
  }

  /** A client that connects and then disconnects leaves the gauge where it was, even through a wrap. */
  lemma ConnectDisconnect(a: nat)
    requires a < U64
    ensures WrapSub(WrapAdd(a, 1), 1) == a
    ensures WrapAdd(WrapSub(a, 1), 1) == a
  {
    if a + 1 == U64 {
      assert WrapAdd(a, 1) == 0;
    }
  }

  /** `f64 as u64`: truncation toward zero, saturating at both ends. */
  function AsU64(f: real): (r: nat)
    ensures r < U64
  {
    if f < 0.0 then 0 else if f.Floor >= U64 then U64 - 1 else f.Floor
  }

  /** In range, the cast keeps the whole seconds and drops the fraction. */
  lemma AsU64Truncates(f: real)
    requires 0.0 <= f < U64 as real
    ensures AsU64(f) as real <= f < AsU64(f) as real + 1.0
  {
  }

  // ---- Authorisation ----

  datatype AuthResult = Authorized | AuthError

  /** `HeaderValue::to_str` succeeds when every character is a tab or visible ASCII. */
  predicate VisibleAscii(s: string)
  {
    forall i :: 0 <= i < |s| ==> s[i] == '\t' || 32 <= s[i] as int <= 126
  }

  /** `str::strip_prefix`. */
  function StripPrefix(s: string, p: string): (r: Option<string>)
    ensures r.Some? <==> |p| <= |s| && s[..|p|] == p
  {
    if |p| <= |s| && s[..|p|] == p then Some(s[|p|..]) else None
  }

  lemma StripPrefixIsConcat(s: string, p: string, e: string)
    ensures StripPrefix(s, p) == Some(e) <==> s == p + e
  {
    if s == p + e {
      assert s[..|p|] == p && s[|p|..] == e;
    }
  }

  const BearerPrefix: string := "Bearer "

  /**
   * `check_auth`. `headers` maps lower-case header names to values, `query`
   * is the parsed query string and `token` is the configured `BRIDGE_TOKEN`.
   */
  function CheckAuth(headers: map<string, string>, query: map<string, string>, token: Option<string>): (r: AuthResult)
    ensures r == AuthError ==> token.Some?
  {
    match token
    case None => Authorized
    case Some(expected) =>
      if "token" in query && query["token"] == expected then Authorized
      else if "authorization" in headers && VisibleAscii(headers["authorization"])
              && StripPrefix(headers["authorization"], BearerPrefix) == Some(expected) then Authorized
      else AuthError
  }

  /**
   * The decision table: access is granted exactly when no token is
   * configured, or the query's `token` equals it, or the `authorization`
   * header is literally `"Bearer "` followed by it (and is sendable ASCII).
   */
  lemma AuthDecision(headers: map<string, string>, query: map<string, string>, token: Option<string>)
    ensures CheckAuth(headers, query, token) == Authorized <==>
      || token.None?
      || ("token" in query && query["token"] == token.value)
      || ("authorization" in headers && headers["authorization"] == BearerPrefix + token.value
          && VisibleAscii(token.value))
  {
    if token.Some? && "authorization" in headers {
      var h := headers["authorization"];
      StripPrefixIsConcat(h, BearerPrefix, token.value);
      if h == BearerPrefix + token.value {
        assert VisibleAscii(h) <==> VisibleAscii(token.value) by {
          assert forall i :: 0 <= i < |token.value| ==> h[|BearerPrefix| + i] == token.value[i];
          assert VisibleAscii(BearerPrefix);
        }
      }
    }
  }

  /** The scheme is matched case-sensitively: `bearer <token>` is refused. */
  lemma BearerIsCaseSensitive(expected: string)
    ensures CheckAuth(map["authorization" := "bearer " + expected], map[], Some(expected)) == AuthError
  {
    var h := "bearer " + expected;
    assert h[0] == 'b';
    assert StripPrefix(h, BearerPrefix).None?;
  }

  // ---- Statistics ----

  /** The chatter frame the bridge broadcasts (`MsgDto`). */
  datatype MsgDto = MsgDto(kind: string, topic: string, seqNum: nat, ts: real, recvTs: real, sizeBytes: nat, data: string)

  class Stats {
    var msgsTotal: nat
    var bytesTotal: nat
    var wsClients: nat
    /** `(second, messages counted in it)`, oldest first. */
    var window: seq<(nat, nat)>
    /** Messages since the last tick. */
    var secAcc: nat

    ghost predicate Valid()
      reads this
    {
      && msgsTotal < U64 && bytesTotal < U64 && wsClients < U64 && secAcc < U64
      && |window| <= WindowLen
    }

    /** `Stats::new`. */
    constructor ()
      ensures Valid()
      ensures msgsTotal == 0 && bytesTotal == 0 && wsClients == 0 && window == [] && secAcc == 0
    {
      msgsTotal, bytesTotal, wsClients, window, secAcc := 0, 0, 0, [], 0;
    }

    /**
     * The `/chatter` callback: one more message, `data.len()` (UTF-8 bytes)
     * more bytes, one more in the current second, and the frame to broadcast,
     * stamped with the callback's clock reading `now`.
     */
    method OnChatter(data: string, now: real) returns (dto: MsgDto)
      requires Valid()
      modifies this`msgsTotal, this`bytesTotal, this`secAcc
      ensures Valid()
      ensures msgsTotal == WrapAdd(old(msgsTotal), 1)
      ensures bytesTotal == WrapAdd(old(bytesTotal), Text.Utf8Len(data))
      ensures secAcc == WrapAdd(old(secAcc), 1)
      ensures dto == MsgDto("msg", "chatter", 0, now, now, Text.Utf8Len(data), data)
    {
      msgsTotal := WrapAdd(msgsTotal, 1);
      bytesTotal := WrapAdd(bytesTotal, Text.Utf8Len(data));
      secAcc := WrapAdd(secAcc, 1);
      dto := MsgDto("msg", "chatter", 0, now, now, Text.Utf8Len(data), data);
    }

    /** `handle_ws` on upgrade. */
    method ClientConnected()
      requires Valid()
      modifies this`wsClients
      ensures Valid() && wsClients == WrapAdd(old(wsClients), 1)
    {
      wsClients := WrapAdd(wsClients, 1);
    }

    /** `handle_ws` when its send loop ends. */
    method ClientDisconnected()
      requires Valid()
      modifies this`wsClients
      ensures Valid() && wsClients == WrapSub(old(wsClients), 1)
    {
      wsClients := WrapSub(wsClients, 1);
    }

    /**
     * One tick of the ticker task: take and reset the per-second count,
     * append `(now as u64, count)`, then pop from the front while the window
     * is longer than 30. The window keeps the newest 30 entries; from a valid
     * state at most the single oldest entry goes.
     */
    method WindowTick(now: real)
      requires Valid()
      modifies this`window, this`secAcc
      ensures Valid()
      ensures secAcc == 0
      ensures window == Fifo.Newest(old(window) + [(AsU64(now), old(secAcc))], WindowLen)
      ensures window == (if |old(window)| < WindowLen then old(window) else old(window)[1..]) + [(AsU64(now), old(secAcc))]
    {
      var entry := (AsU64(now), secAcc);
      Fifo.PushShiftIsNewest(window, entry, WindowLen);
      secAcc := 0;
      window := DropOldest(window + [entry], WindowLen);
    }
  }

  /** `while w.len() > cap { w.pop_front(); }`: the newest `cap` entries remain. */
  method DropOldest<T>(w: seq<T>, cap: nat) returns (r: seq<T>)
    ensures r == Fifo.Newest(w, cap)
  {
    r := w;
    while |r| > cap
      invariant |r| <= |w| && r == w[|w| - |r|..]
      invariant |r| >= cap || r == w
      decreases |r|
    {
      assert r[1..] == w[|w| - |r| + 1..];
      r := r[1..];
    }
  }

  /** The counts of a window, summed; no entry exceeds the total. */
  function CountSum(w: seq<(nat, nat)>): (r: nat)
    ensures forall i :: 0 <= i < |w| ==> w[i].1 <= r
  {
    if |w| == 0 then 0
    else
      var front := w[..|w| - 1];
      assert forall i :: 0 <= i < |front| ==> front[i] == w[i];
      CountSum(front) + w[|w| - 1].1
  }

  lemma {:induction false} CountSumBound(w: seq<(nat, nat)>, m: nat)
    requires forall i :: 0 <= i < |w| ==> w[i].1 <= m
    ensures CountSum(w) <= |w| * m
    decreases |w|
  {
    if |w| > 0 {
      CountSumBound(w[..|w| - 1], m);
    }
  }

  /** `sum / max(len, 1)`: the mean count per entry, 0 for an empty window. */
  function WindowThroughput(w: seq<(nat, nat)>): (r: real)
    ensures r >= 0.0
    ensures |w| == 0 ==> r == 0.0
  {
    CountSum(w) as real / (if |w| < 1 then 1 else |w|) as real
  }

  /** The throughput never exceeds the busiest second in the window. */
  lemma ThroughputAtMostPeak(w: seq<(nat, nat)>, m: nat)
    requires forall i :: 0 <= i < |w| ==> w[i].1 <= m
    ensures WindowThroughput(w) <= m as real
  {
    if |w| > 0 {
      CountSumBound(w, m);
      var n := |w| as real;
      assert CountSum(w) as real <= n * m as real;
      DivideBound(CountSum(w) as real, m as real, n);
    }
  }

  lemma DivideBound(a: real, m: real, n: real)
    requires n > 0.0 && a <= n * m
    ensures a / n <= m
  {
    var q := a / n;
    assert q * n == a;
    assert (q - m) * n <= 0.0;
  }

  /** Thirty seconds of ten messages each read out as ten messages per second. */
  lemma SteadyThroughput()
    ensures WindowThroughput(Steady(30, 10)) == 10.0
  {
    CountSumConstant(30, 10);
  }

  /** `n` entries counting `c` messages each. */
  function Steady(n: nat, c: nat): seq<(nat, nat)>
  {
    seq(n, _ => (0, c))
  }

  lemma {:induction false} CountSumConstant(n: nat, c: nat)
    ensures CountSum(Steady(n, c)) == n * c
  {
    if n > 0 {
      assert Steady(n, c)[..n - 1] == Steady(n - 1, c);
      CountSumConstant(n - 1, c);
    }
  }

  // ---- Robot poses ----

  /** A parsed JSON value: numbers keep serde's split into integers and floats. */
  datatype Json =
    | Null
    | Bool(b: bool)
    | Int(i: int)
    | Float(f: real)
    | Str(s: string)
    | Arr(items: seq<Json>)
    | Obj(fields: map<string, Json>)

  /** `Value::get` with a key: only objects have fields. */
  function Get(v: Json, key: string): (r: Option<Json>)
    ensures r.Some? <==> v.Obj? && key in v.fields
  {
    if v.Obj? && key in v.fields then Some(v.fields[key]) else None
  }

  /** `Value::as_u64`: a non-negative integer that fits. */
  function AsU64Value(v: Json): (r: Option<nat>)
    ensures r.Some? <==> v.Int? && 0 <= v.i < U64
  {
    if v.Int? && 0 <= v.i < U64 then Some(v.i as nat) else None
  }

  /** `Value::as_f64`: any number. */
  function AsF64Value(v: Json): (r: Option<real>)
    ensures r.Some? <==> v.Int? || v.Float?
  {
    match v
    case Int(i) => Some(i as real)
    case Float(f) => Some(f)
    case _ => None
  }

  /** The robot frame the bridge broadcasts (`RobotDto`). */
  datatype RobotDto = RobotDto(kind: string, seqNum: nat, x: real, y: real, theta: real, ts: real, recvTs: real)

  /**
   * How one coordinate is read: a float as it is, an integer converted, and
   * 0.0 when the field is missing or not a number.
   */
  ghost predicate CoordinateFrom(field: Option<Json>, c: real)
  {
    && (field.Some? && field.value.Float? ==> c == field.value.f)
    && (field.Some? && field.value.Int? ==> c == field.value.i as real)
    && (field.None? || !(field.value.Int? || field.value.Float?) ==> c == 0.0)
  }

  /** How the sequence number is read: an integer in `u64` range as it is, 0 otherwise. */
  ghost predicate SeqFrom(field: Option<Json>, n: nat)
  {
    if field.Some? && field.value.Int? && 0 <= field.value.i < U64 then n == field.value.i else n == 0
  }

  /** `v.get(key).and_then(Value::as_f64).unwrap_or(0.0)`. */
  function NumberOr(v: Json, key: string): (r: real)
    ensures CoordinateFrom(Get(v, key), r)
  {
    match Get(v, key)
    case None => 0.0
    case Some(f) => AsF64Value(f).GetOr(0.0)
  }

  /**
   * The `/robot_pose` callback: `parsed` is what `serde_json::from_str` made
   * of the payload (none when it is not JSON) and `now` the clock reading.
   * Nothing is sent for a payload that is not JSON.
   */
  function PoseMessage(parsed: Option<Json>, now: real): (r: Option<RobotDto>)
    ensures r.Some? <==> parsed.Some?
    ensures r.Some? ==> r.value.kind == "robot" && r.value.ts == now && r.value.recvTs == now && r.value.seqNum < U64
    ensures r.Some? ==> SeqFrom(Get(parsed.value, "seq"), r.value.seqNum)
    ensures r.Some? ==> CoordinateFrom(Get(parsed.value, "x"), r.value.x)
    ensures r.Some? ==> CoordinateFrom(Get(parsed.value, "y"), r.value.y)
    ensures r.Some? ==> CoordinateFrom(Get(parsed.value, "theta"), r.value.theta)
  {
    match parsed
    case None => None
    case Some(v) =>
      var seqNum := match Get(v, "seq") case None => 0 case Some(s) => AsU64Value(s).GetOr(0);
      Some(RobotDto("robot", seqNum, NumberOr(v, "x"), NumberOr(v, "y"), NumberOr(v, "theta"), now, now))
  }

  /** A well-typed pose is forwarded as it came. */
  lemma PoseWellTyped(n: nat, x: real, y: real, th: real, now: real)
    requires n < U64
    ensures PoseMessage(Some(Obj(map["seq" := Int(n), "x" := Float(x), "y" := Float(y), "theta" := Float(th)])), now)
         == Some(RobotDto("robot", n, x, y, th, now, now))
  {
  }

  /** Any JSON that is not an object, or lacks the fields, defaults every field to 0. */
  lemma PoseNonObject(v: Json, now: real)
    requires !v.Obj? || (forall k :: k in v.fields ==> k != "seq" && k != "x" && k != "y" && k != "theta")
    ensures PoseMessage(Some(v), now) == Some(RobotDto("robot", 0, 0.0, 0.0, 0.0, now, now))
  {
  }

  /**
   * An example of the per-field rule: a negative or string `seq` becomes 0,
   * an integer coordinate is taken as a float, `null` becomes 0.
   */
  lemma PoseIllTyped(now: real)
    ensures PoseMessage(Some(Obj(map["seq" := Int(-3), "x" := Int(2), "y" := Null, "theta" := Str("1")])), now)
         == Some(RobotDto("robot", 0, 2.0, 0.0, 0.0, now, now))
    ensures PoseMessage(Some(Obj(map["seq" := Str("7")])), now).value.seqNum == 0
  {
  }
}
