/**
 The latency tracker: src/packet.c with the counters of src/stats.c and the snapshots that
 src/server.c takes from a second thread.

 The two hash tables are maps here (HashTable shows that they behave like maps), keyed by what
 their key strings spell.  Counters do not wrap.
 */
module Tracker {

  type Address = n: int | 0 <= n < 0x1_0000_0000
  type Port = n: int | 0 <= n < 0x1_0000

  datatype Endpoint = Endpoint(ip: Address, port: Port)

  /** Where a request comes from and where it goes. */
  datatype Pair = Pair(client: Endpoint, server: Endpoint)

  datatype Time = Time(sec: int, usec: int)

  /** payload is the number of captured payload bytes, size that of the packet. */
  datatype Packet = Packet(src: Endpoint, dst: Endpoint, time: Time, syn: bool, ack: bool, payload: nat, size: nat)

  datatype Stats = Stats(requests: nat, requestBytes: nat, responses: nat, responseBytes: nat, buckets: seq<nat>)

  /** A pending request; id is the number of the packet that made it. */
  datatype Request = Request(time: Time, id: nat)

  /** A latency that was counted: for which request, at which server. */
  datatype Observation = Observation(id: nat, server: Endpoint, latency: int)

  /** count is the number of packets so far, log what has been counted. */
  datatype State = State(
    syn: map<Endpoint, Stats>,
    pending: map<Pair, Request>,
    primed: bool,
    lastExpire: Time,
    count: nat,
    log: seq<Observation>)

  const REQUEST_TIMEOUT_US := 60_000_000
  const EXPIRE_INTERVAL_US := 1_000_000
  const MAX_PENDING_REQUESTS := 100_000
  const LATENCY_BUCKETS := 18

  function TvDeltaUs(later: Time, earlier: Time): int {
    (later.sec - earlier.sec) * 1_000_000 + (later.usec - earlier.usec)
  }

  /** Microseconds since the epoch. */
  function Micros(t: Time): int { t.sec * 1_000_000 + t.usec }

  lemma DeltaIsDifference(later: Time, earlier: Time)
    ensures TvDeltaUs(later, earlier) == Micros(later) - Micros(earlier)
  {
  }

  // ----- counters (src/stats.c) -----

  const UPPER_US: seq<int> := [
    100, 200, 500, 1000, 5000, 10000, 20000, 50000, 100000, 200000, 500000, 1000000,
    2000000, 3000000, 5000000, 10000000, 20000000]

  /** Latencies above the previous bound and up to this one; the last bucket has no bound. */
  predicate InBucket(latency: int, i: nat)
    requires i < LATENCY_BUCKETS
  {
    && (i > 0 ==> UPPER_US[i - 1] < latency)
    && (i < LATENCY_BUCKETS - 1 ==> latency <= UPPER_US[i])
  }

  /** The buckets do not overlap. */
  lemma OneBucket(latency: int, i: nat, j: nat)
    requires i < LATENCY_BUCKETS && j < LATENCY_BUCKETS && InBucket(latency, i) && InBucket(latency, j)
    ensures i == j
  {
    if i < j { Rising(i, j - 1); }
    if j < i { Rising(j, i - 1); }
  }

  lemma {:induction false} Rising(i: nat, j: nat)
    requires i <= j < LATENCY_BUCKETS - 1
    ensures UPPER_US[i] <= UPPER_US[j]
    decreases j - i
  {
    if i < j { Rising(i, j - 1); }
  }

  function Total(s: seq<nat>): nat {
    if s == [] then 0 else Total(s[..|s| - 1]) + s[|s| - 1]
  }

  lemma {:induction false} TotalBump(s: seq<nat>, i: nat)
    requires i < |s|
    ensures Total(s[i := s[i] + 1]) == Total(s) + 1
  {
    var s' := s[i := s[i] + 1];
    if i < |s| - 1 {
      assert s'[..|s| - 1] == s[..|s| - 1][i := s[i] + 1];
      TotalBump(s[..|s| - 1], i);
    } else {
      assert s'[..|s| - 1] == s[..|s| - 1];
    }
  }

  predicate StatsOk(s: Stats) { |s.buckets| == LATENCY_BUCKETS }

  /** One more latency in its bucket, nothing else changed. */
  predicate Counts(s: Stats, latency: int, s': Stats) {
    && StatsOk(s) && StatsOk(s') && s' == s.(buckets := s'.buckets)
    && exists i :: 0 <= i < LATENCY_BUCKETS && InBucket(if latency < 0 then 0 else latency, i)
                   && s'.buckets == s.buckets[i := s.buckets[i] + 1]
  }

  function BucketOf(latency: int, i: nat): (r: nat)
    requires i < LATENCY_BUCKETS && (i > 0 ==> UPPER_US[i - 1] < latency)
    ensures r < LATENCY_BUCKETS && InBucket(latency, r)
    decreases LATENCY_BUCKETS - i
  {
    if i == LATENCY_BUCKETS - 1 || UPPER_US[i] >= latency then i else BucketOf(latency, i + 1)
  }

  lemma BucketStep(latency: int, i: nat)
    requires i < LATENCY_BUCKETS - 1 && (i > 0 ==> UPPER_US[i - 1] < latency) && UPPER_US[i] < latency
    ensures BucketOf(latency, i) == BucketOf(latency, i + 1)
  {
  }

  lemma BucketHere(latency: int, i: nat)
    requires i < LATENCY_BUCKETS && (i > 0 ==> UPPER_US[i - 1] < latency)
    requires (i == LATENCY_BUCKETS - 1 || UPPER_US[i] >= latency)
    ensures BucketOf(latency, i) == i
  {
  }

  function Observe(s: Stats, latency: int): (s': Stats)
    requires StatsOk(s)
    ensures Counts(s, latency, s')
  {
    var i := BucketOf(if latency < 0 then 0 else latency, 0);
    s.(buckets := s.buckets[i := s.buckets[i] + 1])
  }

  lemma ObserveTotal(s: Stats, latency: int)
    requires StatsOk(s)
    ensures Total(Observe(s, latency).buckets) == Total(s.buckets) + 1
  {
    TotalBump(s.buckets, BucketOf(if latency < 0 then 0 else latency, 0));
  }

  function Incr(s: Stats, isRequest: bool, bytes: nat): Stats {
    if isRequest then s.(requests := s.requests + 1, requestBytes := s.requestBytes + bytes)
    else s.(responses := s.responses + 1, responseBytes := s.responseBytes + bytes)
  }

  function NewStats(): Stats { Stats(0, 0, 0, 0, seq(LATENCY_BUCKETS, _ => 0)) }

  lemma {:induction false} TotalZero(n: nat)
    ensures Total(seq(n, _ => 0)) == 0
  {
    if n > 0 {
      TotalZero(n - 1);
      var s: seq<nat> := seq(n, _ => 0);
      assert s[..n - 1] == seq(n - 1, _ => 0);
    }
  }

  // ----- the steps of one packet -----

  predicate Stale(r: Request, now: Time, timeout: int) { TvDeltaUs(now, r.time) > timeout }

  /** requests_expire: only stale requests go. */
  function Swept(pending: map<Pair, Request>, now: Time, timeout: int): map<Pair, Request> {
    map pair | pair in pending && !Stale(pending[pair], now, timeout) :: pending[pair]
  }

  /** The packet arrives: every so often stale requests are dropped. */
  function Arrive(s: State, now: Time): State {
    var s1 := s.(count := s.count + 1);
    if !s.primed then s1.(primed := true, lastExpire := now)
    else if TvDeltaUs(now, s.lastExpire) < EXPIRE_INTERVAL_US then s1
    else s1.(lastExpire := now, pending := Swept(s.pending, now, REQUEST_TIMEOUT_US))
  }

  /** Under the lock: a server endpoint is registered at its first handshake packet. */
  function Register(s: State, p: Packet, granted: bool): State {
    var e := if p.ack then p.src else p.dst;
    if !p.syn || e in s.syn || !granted then s else s.(syn := s.syn[e := NewStats()])
  }

  datatype Direction = Response | ToServer | Neither

  function DirectionOf(s: State, p: Packet): Direction {
    if p.src in s.syn then Response else if p.dst in s.syn then ToServer else Neither
  }

  /** Under the lock: the packet is counted. */
  function Count(s: State, p: Packet): State {
    match DirectionOf(s, p)
    case Response => s.(syn := s.syn[p.src := Incr(s.syn[p.src], false, p.size)])
    case ToServer => s.(syn := s.syn[p.dst := Incr(s.syn[p.dst], true, p.size)])
    case Neither => s
  }

  /** A request is remembered, unless one is pending on the same connection, the table is full
      or memory is short. */
  function Remember(s: State, p: Packet, granted: bool): State {
    var pair := Pair(p.src, p.dst);
    if pair in s.pending || |s.pending| >= MAX_PENDING_REQUESTS || !granted then s
    else s.(pending := s.pending[pair := Request(p.time, s.count)])
  }

  /** Under the lock: the latency of the pending request that a response answers. */
  function Measure(s: State, p: Packet): State
    requires p.src in s.syn ==> StatsOk(s.syn[p.src])
  {
    var pair := Pair(p.dst, p.src);
    if pair !in s.pending || p.src !in s.syn then s
    else
      var delta := TvDeltaUs(p.time, s.pending[pair].time);
      s.(syn := s.syn[p.src := Observe(s.syn[p.src], delta)],
         log := s.log + [Observation(s.pending[pair].id, p.src, delta)])
  }

  /** ... and the request is no longer pending. */
  function Forget(s: State, p: Packet): State {
    s.(pending := s.pending - {Pair(p.dst, p.src)})
  }
}
