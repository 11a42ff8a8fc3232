/**
 The story of a capture, told by its packets alone: which endpoints are registered, what their
 counters hold, which requests are pending and which latencies have been counted.  The tracker
 (src/packet.c) agrees with it after every packet.
 */
module History {
  import opened Basics
  import opened Tracker
  import opened TrackerRuns

  // ----- what the packets say -----

  /** A handshake packet names the server's endpoint. */
  predicate Registers(p: Packet, e: Endpoint) { p.payload == 0 && p.syn && e == if p.ack then p.src else p.dst }

  /** One of the first n packets registered e. */
  ghost predicate Registered(ps: seq<Packet>, gr: seq<bool>, n: nat, e: Endpoint)
    requires n <= |ps| == |gr|
  {
    exists i :: 0 <= i < n && gr[i] && Registers(ps[i], e)
  }

  /** Packet i asks the server of connection c. */
  ghost predicate Sent(ps: seq<Packet>, gr: seq<bool>, i: nat, c: Pair)
    requires i < |ps| == |gr|
  {
    && ps[i].payload > 0 && ps[i].src == c.client && ps[i].dst == c.server
    && !Registered(ps, gr, i, c.client) && Registered(ps, gr, i, c.server)
  }

  /** Packet j answers on connection c. */
  ghost predicate Answers(ps: seq<Packet>, gr: seq<bool>, j: nat, c: Pair)
    requires j < |ps| == |gr|
  {
    ps[j].payload > 0 && ps[j].src == c.server && ps[j].dst == c.client && Registered(ps, gr, j, c.server)
  }

  ghost predicate Unanswered(ps: seq<Packet>, gr: seq<bool>, i: nat, n: nat, c: Pair)
    requires n <= |ps| == |gr|
  {
    forall j :: i < j < n ==> !Answers(ps, gr, j, c)
  }

  /** When the last sweep before packet n was, or the first packet came. */
  function LastSweep(ps: seq<Packet>, n: nat): int
    requires 0 < n <= |ps|
  {
    var t := Micros(ps[n - 1].time);
    if n == 1 || t - LastSweep(ps, n - 1) >= 1_000_000 then t else LastSweep(ps, n - 1)
  }

  /** Packet k comes a second or more after the last sweep. */
  predicate SweepsAt(ps: seq<Packet>, k: nat)
    requires k < |ps|
  {
    k > 0 && Micros(ps[k].time) - LastSweep(ps, k) >= 1_000_000
  }

  /** The sweep at packet k drops a request of packet i: more than 60 s have passed. */
  predicate DropsAt(ps: seq<Packet>, i: nat, k: nat)
    requires i < |ps| && k < |ps|
  {
    SweepsAt(ps, k) && Micros(ps[k].time) - Micros(ps[i].time) > 60_000_000
  }

  ghost predicate Dropped(ps: seq<Packet>, i: nat, n: nat)
    requires i < |ps| && n <= |ps|
  {
    exists k :: i < k < n && DropsAt(ps, i, k)
  }

  /** What packet k leaves of the pending requests when it arrives. */
  ghost function Left(ps: seq<Packet>, k: nat, pending: map<Pair, Request>): map<Pair, Request>
    requires k < |ps|
  {
    map c | c in pending && !(SweepsAt(ps, k) && Micros(ps[k].time) - Micros(pending[c].time) > 60_000_000) ::
      pending[c]
  }

  /** The time between two packets in microseconds. */
  function Elapsed(p: Packet, q: Packet): int {
    (q.time.sec - p.time.sec) * 1_000_000 + (q.time.usec - p.time.usec)
  }

  /** Request i was remembered: it is pending right behind packet i. */
  ghost predicate Remembered(pend: seq<map<Pair, Request>>, i: nat, c: Pair)
    requires i + 1 < |pend|
  {
    c in pend[i + 1] && pend[i + 1][c].id == i + 1
  }

  /** What an endpoint's counters should hold after n packets. */
  ghost function Tally(ps: seq<Packet>, gr: seq<bool>, n: nat, e: Endpoint): (int, int, int, int)
    requires n <= |ps| == |gr|
  {
    if n == 0 then (0, 0, 0, 0)
    else
      var t, p := Tally(ps, gr, n - 1, e), ps[n - 1];
      if p.payload == 0 || !Registered(ps, gr, n - 1, e) then t
      else if p.src == e then (t.0, t.1, t.2 + 1, t.3 + p.size)
      else if p.dst == e && !Registered(ps, gr, n - 1, p.src) then (t.0 + 1, t.1 + p.size, t.2, t.3)
      else t
  }

  /** How many latencies of a log belong to bucket k of endpoint e. */
  function InLog(log: seq<Observation>, e: Endpoint, k: nat): nat {
    if log == [] then 0
    else
      var o := log[|log| - 1];
      InLog(log[..|log| - 1], e, k) + if o.server == e && Bucket(o.latency) == k then 1 else 0
  }

  /** The bucket of a latency in microseconds, by the buckets' names. */
  function Bucket(us: int): nat {
    if us <= 100 then 0              // <0.1ms
    else if us <= 200 then 1         // 0.1ms~0.2ms
    else if us <= 500 then 2         // 0.2~0.5ms
    else if us <= 1_000 then 3       // 0.5ms~1ms
    else if us <= 5_000 then 4       // 1ms~5ms
    else if us <= 10_000 then 5      // 5ms~10ms
    else if us <= 20_000 then 6      // 10ms~20ms
    else if us <= 50_000 then 7      // 20ms~50ms
    else if us <= 100_000 then 8     // 50ms~100ms
    else if us <= 200_000 then 9     // 100ms~200ms
    else if us <= 500_000 then 10    // 200ms~500ms
    else if us <= 1_000_000 then 11  // 0.5s~1s
    else if us <= 2_000_000 then 12  // 1s~2s
    else if us <= 3_000_000 then 13  // 2s~3s
    else if us <= 5_000_000 then 14  // 3s~5s
    else if us <= 10_000_000 then 15 // 5s~10s
    else if us <= 20_000_000 then 16 // 10s~20s
    else 17                          // +inf
  }

  function Clamped(latency: int): int { if latency < 0 then 0 else latency }

  /** The table's bounds say the same. */
  lemma BucketIs(latency: int, k: nat)
    requires k < LATENCY_BUCKETS
    ensures InBucket(Clamped(latency), k) <==> Bucket(latency) == k
  {
    var b := Bucket(latency);
    assert InBucket(Clamped(latency), b);
    if InBucket(Clamped(latency), k) { OneBucket(Clamped(latency), k, b); }
  }

  // ----- the story -----

  ghost predicate PendingTold(ps: seq<Packet>, gr: seq<bool>, n: nat, pending: map<Pair, Request>)
    requires n <= |ps| == |gr|
  {
    forall c :: c in pending ==> PendingFrom(ps, gr, n, c, pending[c])
  }

  /** A pending request is one that was sent and has neither been answered nor dropped since. */
  ghost predicate PendingFrom(ps: seq<Packet>, gr: seq<bool>, n: nat, c: Pair, r: Request)
    requires n <= |ps| == |gr|
  {
    && 0 < r.id <= n && r.time == ps[r.id - 1].time
    && Sent(ps, gr, r.id - 1, c) && Unanswered(ps, gr, r.id - 1, n, c) && !Dropped(ps, r.id - 1, n)
  }

  /** A counted latency is the time from a request to its first answer. */
  ghost predicate Measures(ps: seq<Packet>, gr: seq<bool>, i: nat, j: nat, o: Observation)
    requires i < j < |ps| == |gr|
  {
    var c := Pair(ps[j].dst, ps[j].src);
    && Sent(ps, gr, i, c) && Answers(ps, gr, j, c) && Unanswered(ps, gr, i, j, c) && !Dropped(ps, i, j + 1)
    && o == Observation(i + 1, ps[j].src, Elapsed(ps[i], ps[j]))
  }

  ghost predicate LogTold(ps: seq<Packet>, gr: seq<bool>, n: nat, log: seq<Observation>)
    requires n <= |ps| == |gr|
  {
    forall k :: 0 <= k < |log| ==> Measured(ps, gr, n, log[k])
  }

  ghost predicate Measured(ps: seq<Packet>, gr: seq<bool>, n: nat, o: Observation)
    requires n <= |ps| == |gr|
  {
    exists i, j :: 0 <= i < j < n && Measures(ps, gr, i, j, o)
  }

  /** A remembered request that is unanswered is still pending exactly if it has not been dropped. */
  ghost predicate Waits(ps: seq<Packet>, gr: seq<bool>, n: nat, pend: seq<map<Pair, Request>>, i: nat, c: Pair)
    requires i < n <= |ps| == |gr| && n < |pend|
  {
    Remembered(pend, i, c) && Unanswered(ps, gr, i, n, c) ==>
      (c in pend[n] && pend[n][c] == Request(ps[i].time, i + 1) <==> !Dropped(ps, i, n))
  }

  /** Answered before it is dropped, it is counted with exactly the time that passed. */
  ghost predicate IsCounted(ps: seq<Packet>, gr: seq<bool>, pend: seq<map<Pair, Request>>, log: seq<Observation>,
      i: nat, j: nat, c: Pair)
    requires i < j < |ps| == |gr| && j < |pend|
  {
    Remembered(pend, i, c) && Answers(ps, gr, j, c) && Unanswered(ps, gr, i, j, c) && !Dropped(ps, i, j + 1) ==>
      Observation(i + 1, c.server, Elapsed(ps[i], ps[j])) in log
  }

  /** A request is remembered exactly when memory is granted, none is left on its connection and fewer
      than 100000 are left in all. */
  ghost predicate Remembers(ps: seq<Packet>, gr: seq<bool>, pend: seq<map<Pair, Request>>, i: nat, c: Pair)
    requires i < |ps| == |gr| && i + 1 < |pend|
  {
    var left := Left(ps, i, pend[i]);
    Remembered(pend, i, c) <==> Sent(ps, gr, i, c) && gr[i] && c !in left && |left| < 100_000
  }

  /** The counters of a registered endpoint. */
  ghost predicate CountersTold(ps: seq<Packet>, gr: seq<bool>, n: nat, e: Endpoint, s: Stats, log: seq<Observation>)
    requires n <= |ps| == |gr|
  {
    && (s.requests, s.requestBytes, s.responses, s.responseBytes) == Tally(ps, gr, n, e)
    && |s.buckets| == 18 && forall k :: 0 <= k < 18 ==> s.buckets[k] == InLog(log, e, k)
  }

  /** Everything after n packets; pend holds the pending requests after each packet. */
  ghost predicate Told(ps: seq<Packet>, gr: seq<bool>, n: nat, pend: seq<map<Pair, Request>>,
      view: map<Endpoint, Stats>, log: seq<Observation>)
    requires n <= |ps| == |gr| && |pend| == n + 1
  {
    && pend[0] == map[] && (forall e :: e in view <==> Registered(ps, gr, n, e))
    && (forall e :: e in view ==> CountersTold(ps, gr, n, e, view[e], log))
    && PendingTold(ps, gr, n, pend[n]) && LogTold(ps, gr, n, log)
    && (forall i, c :: 0 <= i < n ==> Remembers(ps, gr, pend, i, c) && Waits(ps, gr, n, pend, i, c))
    && (forall i, j, c :: 0 <= i < j < n ==> IsCounted(ps, gr, pend, log, i, j, c))
  }

  // ----- the parts of one packet -----

  /** What one packet does. */
  ghost predicate Stepped(s: State, p: Packet, granted: bool, s': State) {
    SynOk(s) && s' == Process(s, p, granted)
  }

  lemma ArrivePart(s: State, p: Packet)
    ensures var s1 := Arrive(s, p.time); s1.syn == s.syn && s1.log == s.log && s1.count == s.count + 1
  {
    hide Swept;
  }

  /** The state's clock is that of the packets. */
  ghost predicate Clocked(ps: seq<Packet>, n: nat, s: State)
    requires n <= |ps|
  {
    if n == 0 then !s.primed else s.primed && Micros(s.lastExpire) == LastSweep(ps, n)
  }

  lemma ClockNext(ps: seq<Packet>, n: nat, s: State, granted: bool, s': State)
    requires n < |ps| && Clocked(ps, n, s) && Stepped(s, ps[n], granted, s')
    ensures Clocked(ps, n + 1, s')
  {
    ClockPart(s, ps[n], granted, s');
    hide Stepped;
    var t := ps[n].time;
    if s.primed { DeltaIsDifference(t, s.lastExpire); }
  }

  lemma ClockPart(s: State, p: Packet, granted: bool, s': State)
    requires Stepped(s, p, granted, s')
    ensures s'.primed
    ensures s'.lastExpire ==
      if !s.primed || TvDeltaUs(p.time, s.lastExpire) >= EXPIRE_INTERVAL_US then p.time else s.lastExpire
  {
    ArrivePart(s, p);
    CountOk(Arrive(s, p.time), p);
    hide Swept, TvDeltaUs, StatsOk, Incr, Observe, NewStats;
  }

  /** Arriving, a packet leaves what the packets say. */
  lemma ArrivalLeaves(ps: seq<Packet>, n: nat, s: State)
    requires n < |ps| && Clocked(ps, n, s)
    ensures Arrive(s, ps[n].time).pending == Left(ps, n, s.pending)
  {
    var t := ps[n].time;
    forall c | c in s.pending ensures TvDeltaUs(t, s.pending[c].time) == Micros(t) - Micros(s.pending[c].time) {}
    if s.primed { DeltaIsDifference(t, s.lastExpire); }
    hide Micros, TvDeltaUs;
    assert Arrive(s, t).pending == Left(ps, n, s.pending);
  }

  function Counted(s: State, p: Packet, e: Endpoint): Stats
    requires e in s.syn
  {
    if p.src in s.syn then (if e == p.src then Incr(s.syn[e], false, p.size) else s.syn[e])
    else if e == p.dst then Incr(s.syn[e], true, p.size) else s.syn[e]
  }

  lemma CountPart(s: State, p: Packet)
    requires SynOk(s)
    ensures var s2 := Count(s, p);
      && s2.syn.Keys == s.syn.Keys && s2.pending == s.pending && s2.log == s.log && s2.count == s.count && SynOk(s2)
      && forall e :: e in s.syn ==> s2.syn[e] == Counted(s, p, e)
  {
    hide Incr, StatsOk;
    CountOk(s, p);
  }

  lemma MeasurePart(s: State, p: Packet)
    requires SynOk(s)
    ensures var s3, c := Measure(s, p), Pair(p.dst, p.src);
      && s3.syn.Keys == s.syn.Keys && s3.pending == s.pending && s3.count == s.count
      && (c !in s.pending || p.src !in s.syn ==> s3 == s)
      && (c in s.pending && p.src in s.syn ==>
            var d := Micros(p.time) - Micros(s.pending[c].time);
            && s3.log == s.log + [Observation(s.pending[c].id, p.src, d)]
            && s3.syn == s.syn[p.src := Observe(s.syn[p.src], d)])
  {
    hide Observe, StatsOk;
    var c := Pair(p.dst, p.src);
    if c in s.pending { DeltaIsDifference(p.time, s.pending[c].time); }
  }

  lemma RememberPart(s: State, p: Packet, granted: bool)
    ensures var s3, c := Remember(s, p, granted), Pair(p.src, p.dst);
      && s3.syn == s.syn && s3.log == s.log && s3.count == s.count
      && s3.pending == if c in s.pending || |s.pending| >= 100_000 || !granted then s.pending
                       else s.pending[c := Request(p.time, s.count)]
  {
  }

  lemma RegisterPart(s: State, p: Packet, granted: bool)
    ensures var s2, e := Register(s, p, granted), if p.ack then p.src else p.dst;
      && s2.pending == s.pending && s2.log == s.log && s2.count == s.count
      && s2.syn == if p.syn && granted && e !in s.syn then s.syn[e := NewStats()] else s.syn
  {
    hide NewStats;
  }

  ghost predicate Asks(s: State, p: Packet, c: Pair) {
    p.payload > 0 && p.src !in s.syn && p.dst in s.syn && c == Pair(p.src, p.dst)
  }

  ghost predicate Replies(s: State, p: Packet, c: Pair) { p.payload > 0 && p.src in s.syn && c == Pair(p.dst, p.src) }

  // ----- one packet -----

  /** The whole effect of a packet on the four parts of the state. */
  lemma StepParts(s: State, p: Packet, granted: bool, s': State)
    requires Stepped(s, p, granted, s')
    ensures var s1 := Arrive(s, p.time);
      && SynOk(s1) && SynOk(Count(s1, p)) && s1.syn == s.syn && s1.log == s.log && s1.count == s.count + 1
      && (p.payload == 0 ==> s' == Register(s1, p, granted))
      && (p.payload > 0 ==>
            var s2, c := Count(s1, p), Pair(p.dst, p.src);
            && (p.src in s.syn ==> s' == if c in s2.pending then Forget(Measure(s2, p), p) else s2)
            && (p.src !in s.syn && p.dst in s.syn ==> s' == Remember(s2, p, granted))
            && (p.src !in s.syn && p.dst !in s.syn ==> s' == s2))
  {
    ArrivePart(s, p);
    CountOk(Arrive(s, p.time), p);
    hide Arrive, Count, Measure, Forget, Remember, Register, StatsOk;
  }

  lemma StepMembers(s: State, p: Packet, granted: bool, s': State)
    requires Stepped(s, p, granted, s')
    ensures s'.count == s.count + 1
    ensures forall e :: e in s'.syn <==> e in s.syn || (granted && Registers(p, e))
  {
    hide Arrive, Count, Measure, Remember, Register, Process, SynOk, NewStats;
    var s1 := Arrive(s, p.time);
    StepParts(s, p, granted, s');
    if p.payload == 0 {
      RegisterPart(s1, p, granted);
    } else {
      CountPart(s1, p);
      MeasurePart(Count(s1, p), p);
      RememberPart(Count(s1, p), p, granted);
      assert s'.syn.Keys == s.syn.Keys;
    }
  }

  /** What becomes of connection c. */
  lemma StepPending(s: State, p: Packet, granted: bool, s': State, c: Pair)
    requires Stepped(s, p, granted, s')
    ensures var kept := Arrive(s, p.time).pending;
      if Replies(s, p, c) then c !in s'.pending
      else if Asks(s, p, c) && c !in kept then
        if granted && |kept| < 100_000 then c in s'.pending && s'.pending[c] == Request(p.time, s.count + 1)
        else c !in s'.pending
      else (c in s'.pending <==> c in kept) && (c in kept ==> s'.pending[c] == kept[c])
  {
    hide Arrive, Count, Measure, Remember, Register, Process, SynOk, NewStats;
    var s1 := Arrive(s, p.time);
    StepParts(s, p, granted, s');
    if p.payload == 0 {
      RegisterPart(s1, p, granted);
    } else {
      CountPart(s1, p);
      MeasurePart(Count(s1, p), p);
      RememberPart(Count(s1, p), p, granted);
    }
  }

  lemma StepLog(s: State, p: Packet, granted: bool, s': State)
    requires Stepped(s, p, granted, s')
    ensures var kept, c := Arrive(s, p.time).pending, Pair(p.dst, p.src);
      s'.log == if Replies(s, p, c) && c in kept then
        s.log + [Observation(kept[c].id, p.src, Micros(p.time) - Micros(kept[c].time))]
      else s.log
  {
    hide Arrive, Count, Measure, Remember, Register, Process, SynOk, NewStats, Micros;
    var s1 := Arrive(s, p.time);
    StepParts(s, p, granted, s');
    if p.payload == 0 {
      RegisterPart(s1, p, granted);
    } else {
      CountPart(s1, p);
      MeasurePart(Count(s1, p), p);
      RememberPart(Count(s1, p), p, granted);
    }
  }

  /** The counters of e behind the packet. */
  ghost function NextStats(s: State, p: Packet, e: Endpoint): Stats
    requires SynOk(s) && e in s.syn
  {
    var kept, c, t := Arrive(s, p.time).pending, Pair(p.dst, p.src), s.syn[e];
    if p.payload > 0 && p.src == e then
      if c in kept then Observe(Incr(t, false, p.size), Micros(p.time) - Micros(kept[c].time))
      else Incr(t, false, p.size)
    else if p.payload > 0 && p.src !in s.syn && p.dst == e then Incr(t, true, p.size)
    else t
  }

  lemma StepStats(s: State, p: Packet, granted: bool, s': State, e: Endpoint)
    requires Stepped(s, p, granted, s')
    ensures e !in s.syn && granted && Registers(p, e) ==> e in s'.syn && s'.syn[e] == NewStats()
    ensures e in s.syn ==> e in s'.syn && s'.syn[e] == NextStats(s, p, e)
  {
    hide Arrive, Count, Measure, Remember, Register, Process, NewStats, Micros, Incr, Observe, StatsOk;
    var s1 := Arrive(s, p.time);
    StepParts(s, p, granted, s');
    if p.payload == 0 {
      RegisterPart(s1, p, granted);
    } else {
      CountPart(s1, p);
      MeasurePart(Count(s1, p), p);
      RememberPart(Count(s1, p), p, granted);
    }
  }

  // ----- the story goes on -----

  lemma RegisteredNext(ps: seq<Packet>, gr: seq<bool>, n: nat, e: Endpoint)
    requires n < |ps| == |gr|
    ensures Registered(ps, gr, n + 1, e) <==> Registered(ps, gr, n, e) || (gr[n] && Registers(ps[n], e))
  {
    hide Registers;
    if gr[n] && Registers(ps[n], e) { assert Registered(ps, gr, n + 1, e); }
    if Registered(ps, gr, n, e) {
      var i :| 0 <= i < n && gr[i] && Registers(ps[i], e);
    }
  }

  lemma RegisteredStays(ps: seq<Packet>, gr: seq<bool>, m: nat, n: nat, e: Endpoint)
    requires m <= n <= |ps| == |gr| && Registered(ps, gr, m, e)
    ensures Registered(ps, gr, n, e)
  {
    hide Registers;
    var i :| 0 <= i < m && gr[i] && Registers(ps[i], e);
  }

  /** The state knows the same endpoints as the packets before it. */
  ghost predicate Knows(ps: seq<Packet>, gr: seq<bool>, n: nat, s: State)
    requires n <= |ps| == |gr|
  {
    forall e :: e in s.syn <==> Registered(ps, gr, n, e)
  }

  lemma SaysTheSame(ps: seq<Packet>, gr: seq<bool>, n: nat, s: State, c: Pair)
    requires n < |ps| == |gr| && Knows(ps, gr, n, s)
    ensures Sent(ps, gr, n, c) <==> Asks(s, ps[n], c)
    ensures Answers(ps, gr, n, c) <==> Replies(s, ps[n], c)
  {
    hide Registered;
  }

  lemma ElapsedIs(p: Packet, q: Packet)
    ensures Elapsed(p, q) == Micros(q.time) - Micros(p.time)
  {
  }

  lemma MembersNext(ps: seq<Packet>, gr: seq<bool>, n: nat, s: State, s': State)
    requires n < |ps| == |gr| && Knows(ps, gr, n, s) && Stepped(s, ps[n], gr[n], s')
    ensures Knows(ps, gr, n + 1, s')
  {
    hide Registered, Registers, Process, SynOk;
    StepMembers(s, ps[n], gr[n], s');
    forall e ensures e in s'.syn <==> Registered(ps, gr, n + 1, e) { RegisteredNext(ps, gr, n, e); }
  }

  lemma DroppedNext(ps: seq<Packet>, i: nat, n: nat)
    requires i < n < |ps|
    ensures Dropped(ps, i, n + 1) <==> Dropped(ps, i, n) || DropsAt(ps, i, n)
  {
    hide DropsAt;
    if Dropped(ps, i, n) {
      var k :| i < k < n && DropsAt(ps, i, k);
      assert i < k < n + 1;
    }
  }

  /** Within 60 s nothing is dropped. */
  lemma NotDropped(ps: seq<Packet>, i: nat, n: nat)
    requires i < n <= |ps| && forall k :: i < k < n ==> Micros(ps[k].time) - Micros(ps[i].time) <= 60_000_000
    ensures !Dropped(ps, i, n)
  {
  }

  lemma PendingNext(ps: seq<Packet>, gr: seq<bool>, n: nat, s: State, s': State)
    requires n < |ps| == |gr| && Knows(ps, gr, n, s) && Stepped(s, ps[n], gr[n], s') && s.count == n
    requires PendingTold(ps, gr, n, s.pending)
    requires Clocked(ps, n, s)
    ensures PendingTold(ps, gr, n + 1, s'.pending)
  {
    hide Registered, Process, SynOk, Arrive, Sent, Answers, Asks, Replies, Knows, Micros;
    ArrivalLeaves(ps, n, s);
    forall c | c in s'.pending ensures PendingFrom(ps, gr, n + 1, c, s'.pending[c]) {
      StepPending(s, ps[n], gr[n], s', c);
      SaysTheSame(ps, gr, n, s, c);
      if c in Left(ps, n, s.pending) {
        assert PendingFrom(ps, gr, n, c, s.pending[c]);
        DroppedNext(ps, s.pending[c].id - 1, n);
      }
    }
  }

  /** The new entry of the log, if there is one, is told by the packets. */
  lemma LogNext(ps: seq<Packet>, gr: seq<bool>, n: nat, s: State, s': State)
    requires n < |ps| == |gr| && Knows(ps, gr, n, s) && Stepped(s, ps[n], gr[n], s') && s.count == n
    requires PendingTold(ps, gr, n, s.pending) && LogTold(ps, gr, n, s.log)
    requires Clocked(ps, n, s)
    ensures LogTold(ps, gr, n + 1, s'.log)
  {
    hide Registered, Process, SynOk, Arrive, Sent, Answers, Asks, Replies, Knows, Micros, Elapsed;
    ArrivalLeaves(ps, n, s);
    StepLog(s, ps[n], gr[n], s');
    var kept, c := Arrive(s, ps[n].time).pending, Pair(ps[n].dst, ps[n].src);
    SaysTheSame(ps, gr, n, s, c);
    forall k | 0 <= k < |s'.log| ensures Measured(ps, gr, n + 1, s'.log[k]) {
      if k < |s.log| {
        assert Measured(ps, gr, n, s.log[k]);
      } else {
        assert PendingFrom(ps, gr, n, c, s.pending[c]);
        DroppedNext(ps, kept[c].id - 1, n);
        ElapsedIs(ps[kept[c].id - 1], ps[n]);
        assert Measures(ps, gr, kept[c].id - 1, n, s'.log[k]);
      }
    }
  }

  lemma WaitsNext(ps: seq<Packet>, gr: seq<bool>, n: nat, s: State, s': State, pend: seq<map<Pair, Request>>, i: nat,
      c: Pair)
    requires n < |ps| == |gr| && |pend| == n + 1 && Knows(ps, gr, n, s) && Stepped(s, ps[n], gr[n], s')
    requires pend[n] == s.pending && s.count == n && PendingTold(ps, gr, n, s.pending) && i <= n
    requires i < n ==> Waits(ps, gr, n, pend, i, c)
    requires Clocked(ps, n, s)
    ensures Waits(ps, gr, n + 1, pend + [s'.pending], i, c)
  {
    hide Registered, Process, SynOk, Arrive, Sent, Answers, Asks, Replies, Knows, Micros;
    ArrivalLeaves(ps, n, s);
    StepPending(s, ps[n], gr[n], s', c);
    SaysTheSame(ps, gr, n, s, c);
    if c in s.pending { assert PendingFrom(ps, gr, n, c, s.pending[c]); }
    if i < n { DroppedNext(ps, i, n); }
  }

  lemma RemembersNext(ps: seq<Packet>, gr: seq<bool>, n: nat, s: State, s': State, pend: seq<map<Pair, Request>>,
      c: Pair)
    requires n < |ps| == |gr| && |pend| == n + 1 && Knows(ps, gr, n, s) && Stepped(s, ps[n], gr[n], s')
    requires pend[n] == s.pending && s.count == n
    requires Clocked(ps, n, s) && PendingTold(ps, gr, n, s.pending)
    ensures Remembers(ps, gr, pend + [s'.pending], n, c)
  {
    hide Registered, Process, SynOk, Arrive, Knows, Micros;
    ArrivalLeaves(ps, n, s);
    StepPending(s, ps[n], gr[n], s', c);
    SaysTheSame(ps, gr, n, s, c);
    if c in s.pending { assert PendingFrom(ps, gr, n, c, s.pending[c]); }
  }

  /** The answer to a request that has waited is counted. */
  lemma CountedNext(ps: seq<Packet>, gr: seq<bool>, n: nat, s: State, s': State, pend: seq<map<Pair, Request>>,
      i: nat, c: Pair)
    requires i < n < |ps| == |gr| && |pend| == n + 1 && Knows(ps, gr, n, s) && Stepped(s, ps[n], gr[n], s')
    requires pend[n] == s.pending && Waits(ps, gr, n, pend, i, c)
    requires Clocked(ps, n, s)
    ensures IsCounted(ps, gr, pend + [s'.pending], s'.log, i, n, c)
  {
    hide Registered, Process, SynOk, Arrive, Sent, Knows, Micros, Elapsed;
    ArrivalLeaves(ps, n, s);
    StepLog(s, ps[n], gr[n], s');
    SaysTheSame(ps, gr, n, s, c);
    ElapsedIs(ps[i], ps[n]);
    DroppedNext(ps, i, n);
    if Replies(s, ps[n], c) && c in Arrive(s, ps[n].time).pending {
      assert s'.log[|s.log|] in s'.log;
    }
  }

  lemma LogGrows(s: State, p: Packet, granted: bool, s': State)
    requires Stepped(s, p, granted, s')
    ensures forall o :: o in s.log ==> o in s'.log
  {
    hide Process, SynOk, Arrive, Micros;
    StepLog(s, p, granted, s');
  }

  // ----- counters -----

  lemma {:induction false} TallyZero(ps: seq<Packet>, gr: seq<bool>, n: nat, e: Endpoint)
    requires n <= |ps| == |gr| && !Registered(ps, gr, n, e)
    ensures Tally(ps, gr, n, e) == (0, 0, 0, 0)
  {
    hide Registers;
    if n > 0 {
      RegisteredNext(ps, gr, n - 1, e);
      TallyZero(ps, gr, n - 1, e);
    }
  }

  lemma {:induction false} InLogZero(ps: seq<Packet>, gr: seq<bool>, n: nat, log: seq<Observation>, e: Endpoint, k: nat)
    requires n <= |ps| == |gr| && LogTold(ps, gr, n, log) && !Registered(ps, gr, n, e) && k < LATENCY_BUCKETS
    ensures InLog(log, e, k) == 0
    decreases |log|
  {
    hide Registered, Bucket, Elapsed, Unanswered;
    if log != [] {
      var last := |log| - 1;
      assert Measured(ps, gr, n, log[last]);
      var i, j :| 0 <= i < j < n && Measures(ps, gr, i, j, log[last]);
      if log[last].server == e {
        RegisteredStays(ps, gr, j, n, e);
        assert false;
      }
      forall m | 0 <= m < last ensures Measured(ps, gr, n, log[..last][m]) { assert Measured(ps, gr, n, log[m]); }
      InLogZero(ps, gr, n, log[..last], e, k);
    }
  }

  lemma InLogAppend(log: seq<Observation>, o: Observation, e: Endpoint, k: nat)
    requires k < LATENCY_BUCKETS
    ensures InLog(log + [o], e, k) == InLog(log, e, k) + if o.server == e && Bucket(o.latency) == k then 1 else 0
  {
    hide Bucket;
    assert (log + [o])[..|log + [o]| - 1] == log;
  }

  /** One more latency in exactly the bucket that it belongs to. */
  lemma ObservedBuckets(t: Stats, latency: int, k: nat)
    requires StatsOk(t) && k < LATENCY_BUCKETS
    ensures var t' := Observe(t, latency);
      && t' == t.(buckets := t'.buckets) && StatsOk(t')
      && t'.buckets[k] == t.buckets[k] + if Bucket(latency) == k then 1 else 0
  {
    hide InBucket, BucketOf, Bucket;
    BucketIs(latency, k);
    var i := BucketOf(Clamped(latency), 0);
    if InBucket(Clamped(latency), k) { OneBucket(Clamped(latency), i, k); }
  }

  lemma CountersNext(ps: seq<Packet>, gr: seq<bool>, n: nat, s: State, s': State, e: Endpoint)
    requires n < |ps| == |gr| && Knows(ps, gr, n, s) && Stepped(s, ps[n], gr[n], s') && e in s'.syn
    requires LogTold(ps, gr, n, s.log) && (e in s.syn ==> CountersTold(ps, gr, n, e, s.syn[e], s.log))
    ensures CountersTold(ps, gr, n + 1, e, s'.syn[e], s'.log)
  {
    hide Process, Arrive, Registered, Observe, Bucket, Micros, InLog, SynOk;
    StepStats(s, ps[n], gr[n], s', e);
    StepLog(s, ps[n], gr[n], s');
    if e in s.syn {
      KnownCounters(ps, gr, n, s, s', e);
    } else {
      StepMembers(s, ps[n], gr[n], s');
      NewCounters(ps, gr, n, s, s', e);
    }
  }

  lemma NewCounters(ps: seq<Packet>, gr: seq<bool>, n: nat, s: State, s': State, e: Endpoint)
    requires n < |ps| == |gr| && Knows(ps, gr, n, s) && e !in s.syn && LogTold(ps, gr, n, s.log)
    requires e in s'.syn && s'.syn[e] == NewStats() && s'.log == s.log
    ensures CountersTold(ps, gr, n + 1, e, s'.syn[e], s'.log)
  {
    hide Registered, Bucket, InLog, LogTold;
    TallyZero(ps, gr, n, e);
    forall k | 0 <= k < 18 ensures InLog(s.log, e, k) == 0 { InLogZero(ps, gr, n, s.log, e, k); }
  }

  lemma KnownCounters(ps: seq<Packet>, gr: seq<bool>, n: nat, s: State, s': State, e: Endpoint)
    requires n < |ps| == |gr| && Knows(ps, gr, n, s) && Stepped(s, ps[n], gr[n], s') && e in s.syn && e in s'.syn
    requires s'.syn[e] == NextStats(s, ps[n], e) && CountersTold(ps, gr, n, e, s.syn[e], s.log)
    ensures CountersTold(ps, gr, n + 1, e, s'.syn[e], s'.log)
  {
    hide Process, Arrive, Registered, Observe, Bucket, Micros, InLog, SynOk;
    var p, t := ps[n], s.syn[e];
    var kept, c := Arrive(s, p.time).pending, Pair(p.dst, p.src);
    StepLog(s, p, gr[n], s');
    var t1 := if p.payload > 0 && p.src == e then Incr(t, false, p.size)
              else if p.payload > 0 && p.src !in s.syn && p.dst == e then Incr(t, true, p.size) else t;
    assert (t1.requests, t1.requestBytes, t1.responses, t1.responseBytes) == Tally(ps, gr, n + 1, e);
    forall k | 0 <= k < 18 ensures s'.syn[e].buckets[k] == InLog(s'.log, e, k) && |s'.syn[e].buckets| == 18 {
      if Replies(s, p, c) && c in kept {
        var o := Observation(kept[c].id, p.src, Micros(p.time) - Micros(kept[c].time));
        InLogAppend(s.log, o, e, k);
        if p.src == e { ObservedBuckets(t1, o.latency, k); }
      }
    }
    if p.src == e && c in kept { ObservedBuckets(t1, Micros(p.time) - Micros(kept[c].time), 0); }
  }

  // ----- the whole step -----

  lemma ToldFirst(ps: seq<Packet>, gr: seq<bool>)
    requires |ps| == |gr|
    ensures Told(ps, gr, 0, [map[]], map[], [])
  {
  }

  /** After one more packet, the story is told of the new state. */
  lemma ToldNext(ps: seq<Packet>, gr: seq<bool>, n: nat, pend: seq<map<Pair, Request>>, s: State, s': State)
    requires n < |ps| == |gr| && |pend| == n + 1 && pend[n] == s.pending && s.count == n
    requires Told(ps, gr, n, pend, s.syn, s.log) && Clocked(ps, n, s) && Stepped(s, ps[n], gr[n], s')
    ensures Told(ps, gr, n + 1, pend + [s'.pending], s'.syn, s'.log) && Clocked(ps, n + 1, s') && s'.count == n + 1
  {
    hide Registered, Process, SynOk, CountersTold, PendingTold, LogTold, Remembers, Waits, IsCounted, Stepped, Clocked;
    var pend' := pend + [s'.pending];
    ClockNext(ps, n, s, gr[n], s');
    MembersNext(ps, gr, n, s, s');
    PendingNext(ps, gr, n, s, s');
    LogNext(ps, gr, n, s, s');
    LogGrows(s, ps[n], gr[n], s');
    StepMembers(s, ps[n], gr[n], s');
    forall e | e in s'.syn ensures CountersTold(ps, gr, n + 1, e, s'.syn[e], s'.log) {
      CountersNext(ps, gr, n, s, s', e);
    }
    forall i, c | 0 <= i < n + 1 ensures Remembers(ps, gr, pend', i, c) && Waits(ps, gr, n + 1, pend', i, c) {
      WaitsNext(ps, gr, n, s, s', pend, i, c);
      if i == n { RemembersNext(ps, gr, n, s, s', pend, c); } else { RemembersStays(ps, gr, pend, s'.pending, i, c); }
    }
    forall i, j, c | 0 <= i < j < n + 1 ensures IsCounted(ps, gr, pend', s'.log, i, j, c) {
      if j == n {
        CountedNext(ps, gr, n, s, s', pend, i, c);
      } else {
        CountedStays(ps, gr, pend, s'.pending, s.log, s'.log, i, j, c);
      }
    }
  }

  lemma RemembersStays(ps: seq<Packet>, gr: seq<bool>, pend: seq<map<Pair, Request>>, next: map<Pair, Request>, i: nat,
      c: Pair)
    requires i < |ps| == |gr| && i + 1 < |pend| && Remembers(ps, gr, pend, i, c)
    ensures Remembers(ps, gr, pend + [next], i, c)
  {
    hide Sent;
  }

  lemma CountedStays(ps: seq<Packet>, gr: seq<bool>, pend: seq<map<Pair, Request>>, next: map<Pair, Request>,
      log: seq<Observation>, log': seq<Observation>, i: nat, j: nat, c: Pair)
    requires i < j < |ps| == |gr| && j < |pend| && IsCounted(ps, gr, pend, log, i, j, c)
    requires forall o :: o in log ==> o in log'
    ensures IsCounted(ps, gr, pend + [next], log', i, j, c)
  {
    hide Answers, Unanswered, Dropped, Elapsed;
  }
}
