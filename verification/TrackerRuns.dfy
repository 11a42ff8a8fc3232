/**
 Runs of the latency tracker, with the second thread's snapshots interleaved: the capture
 thread handles a packet in steps, and between any two of them the lock is free.
 */
module TrackerRuns {
  import opened Basics
  import opened Tracker

  /** Where the capture thread is: between packets, or inside one. */
  datatype Phase =
    | Idle
    | Arrived(p: Packet)
    | Asked(p: Packet)
    | Answered(p: Packet)
    | Measured(p: Packet)

  datatype Machine = Machine(s: State, phase: Phase, now: Time)

  datatype Event =
    | Begin(p: Packet)
    | Handshake(granted: bool)
    | CountPacket
    | RememberRequest(granted: bool)
    | MeasureResponse
    | ForgetRequest
    | Snapshot

  predicate SynOk(s: State) { forall e :: e in s.syn ==> StatsOk(s.syn[e]) }

  /** One step of either thread. */
  ghost predicate Step(m: Machine, ev: Event, m': Machine)
    requires SynOk(m.s)
  {
    match ev
    case Begin(p) => m.phase.Idle? && m' == Machine(Arrive(m.s, p.time), Arrived(p), p.time)
    case Handshake(granted) =>
      m.phase.Arrived? && m.phase.p.payload == 0 && m' == Machine(Register(m.s, m.phase.p, granted), Idle, m.now)
    case CountPacket =>
      && m.phase.Arrived? && m.phase.p.payload > 0
      && m' == Machine(Count(m.s, m.phase.p),
                       match DirectionOf(m.s, m.phase.p)
                       case Response => Answered(m.phase.p)
                       case ToServer => Asked(m.phase.p)
                       case Neither => Idle,
                       m.now)
    case RememberRequest(granted) => m.phase.Asked? && m' == Machine(Remember(m.s, m.phase.p, granted), Idle, m.now)
    case MeasureResponse =>
      && m.phase.Answered?
      && m' == if Pair(m.phase.p.dst, m.phase.p.src) in m.s.pending
        then Machine(Measure(m.s, m.phase.p), Measured(m.phase.p), m.now)
               else m.(phase := Idle)
    case ForgetRequest => m.phase.Measured? && m' == Machine(Forget(m.s, m.phase.p), Idle, m.now)
    case Snapshot => m' == m
  }

  ghost predicate Initial(m: Machine) {
    m.phase.Idle? && m.s.syn == map[] && m.s.pending == map[] && !m.s.primed && m.s.count == 0 && m.s.log == []
  }

  // ----- accounting -----

  ghost function PendingTo(pending: map<Pair, Request>, e: Endpoint): nat {
    |set pair | pair in pending && pair.server == e|
  }

  lemma PendingAdd(pending: map<Pair, Request>, pair: Pair, r: Request, e: Endpoint)
    requires pair !in pending
    ensures PendingTo(pending[pair := r], e) == PendingTo(pending, e) + if pair.server == e then 1 else 0
  {
    var a := set x | x in pending && x.server == e;
    var b := set x | x in pending[pair := r] && x.server == e;
    assert b == if pair.server == e then a + {pair} else a;
  }

  lemma PendingRemove(pending: map<Pair, Request>, pair: Pair, e: Endpoint)
    requires pair in pending
    ensures PendingTo(pending - {pair}, e) == PendingTo(pending, e) - if pair.server == e then 1 else 0
  {
    var a := set x | x in pending && x.server == e;
    var b := set x | x in pending - {pair} && x.server == e;
    assert b == if pair.server == e then a - {pair} else a;
  }

  lemma PendingFewer(pending: map<Pair, Request>, fewer: map<Pair, Request>, e: Endpoint)
    requires forall pair :: pair in fewer ==> pair in pending
    ensures PendingTo(fewer, e) <= PendingTo(pending, e) && |fewer| <= |pending|
  {
    SubsetSize(set x | x in fewer && x.server == e, set x | x in pending && x.server == e);
    SubsetSize(fewer.Keys, pending.Keys);
    assert |fewer.Keys| == |fewer| && |pending.Keys| == |pending|;
  }

  /** How many latencies have been counted at e. */
  function Observed(log: seq<Observation>, e: Endpoint): nat {
    if log == [] then 0 else Observed(log[..|log| - 1], e) + if log[|log| - 1].server == e then 1 else 0
  }

  lemma ObservedAppend(log: seq<Observation>, o: Observation, e: Endpoint)
    ensures Observed(log + [o], e) == Observed(log, e) + if o.server == e then 1 else 0
  {
    assert (log + [o])[..|log|] == log;
  }

  /** The counters of one endpoint: every latency belongs to a counted request and a counted
      response, every pending request to a counted request. */
  ghost predicate Account(m: Machine, e: Endpoint)
    requires e in m.s.syn
  {
    var st := m.s.syn[e];
    && StatsOk(st) && Total(st.buckets) == Observed(m.s.log, e)
    && Total(st.buckets) + PendingTo(m.s.pending, e)
       + (if m.phase.Asked? && m.phase.p.dst == e then 1 else 0)
       - (if m.phase.Measured? && m.phase.p.src == e then 1 else 0) <= st.requests
    && Total(st.buckets) + (if m.phase.Answered? && m.phase.p.src == e then 1 else 0) <= st.responses
  }

  ghost predicate Accounts(m: Machine) {
    && (forall e :: e in m.s.syn ==> Account(m, e))
    && (forall pair :: pair in m.s.pending ==> pair.server in m.s.syn)
    && (forall k :: 0 <= k < |m.s.log| ==> m.s.log[k].server in m.s.syn)
    && |m.s.pending| <= MAX_PENDING_REQUESTS
    && (m.phase.Asked? ==> m.phase.p.dst in m.s.syn)
    && (m.phase.Answered? ==> m.phase.p.src in m.s.syn)
    && (m.phase.Measured? ==> m.phase.p.src in m.s.syn && Pair(m.phase.p.dst, m.phase.p.src) in m.s.pending)
  }

  lemma AccountsOk(m: Machine)
    requires Accounts(m)
    ensures SynOk(m.s)
  {
    hide Total, Observed, PendingTo;
    forall e | e in m.s.syn ensures StatsOk(m.s.syn[e]) { assert Account(m, e); }
  }

  lemma ArriveAccounts(m: Machine, p: Packet, m': Machine)
    requires Accounts(m) && SynOk(m.s) && Step(m, Begin(p), m')
    ensures Accounts(m')
  {
    hide Total, Observed, PendingTo, Stale;
    forall e | e in m'.s.syn ensures Account(m', e) {
      assert Account(m, e);
      PendingFewer(m.s.pending, m'.s.pending, e);
    }
    PendingFewer(m.s.pending, m'.s.pending, p.src);
  }

  lemma NobodyPending(s: State, e: Endpoint)
    requires (forall pair :: pair in s.pending ==> pair.server in s.syn)
    requires (forall k :: 0 <= k < |s.log| ==> s.log[k].server in s.syn) && e !in s.syn
    ensures PendingTo(s.pending, e) == 0 && Observed(s.log, e) == 0
  {
    assert (set pair | pair in s.pending && pair.server == e) == {};
    NotObserved(s.log, e);
  }

  lemma {:induction false} NotObserved(log: seq<Observation>, e: Endpoint)
    requires forall k :: 0 <= k < |log| ==> log[k].server != e
    ensures Observed(log, e) == 0
  {
    if log != [] { NotObserved(log[..|log| - 1], e); }
  }

  lemma RegisterAccounts(m: Machine, granted: bool, m': Machine)
    requires Accounts(m) && SynOk(m.s) && Step(m, Handshake(granted), m')
    ensures Accounts(m')
  {
    hide Total, Observed, PendingTo;
    forall e | e in m'.s.syn ensures Account(m', e) {
      if e in m.s.syn {
        assert Account(m, e);
      } else {
        NobodyPending(m.s, e);
        TotalZero(LATENCY_BUCKETS);
      }
    }
  }

  lemma CountAccounts(m: Machine, m': Machine)
    requires Accounts(m) && SynOk(m.s) && Step(m, CountPacket, m')
    ensures Accounts(m')
  {
    hide Total, Observed, PendingTo;
    forall e | e in m'.s.syn ensures Account(m', e) {
      assert Account(m, e);
    }
  }

  lemma RememberAccounts(m: Machine, granted: bool, m': Machine)
    requires Accounts(m) && SynOk(m.s) && Step(m, RememberRequest(granted), m')
    ensures Accounts(m')
  {
    hide Total, Observed, PendingTo;
    var pair := Pair(m.phase.p.src, m.phase.p.dst);
    forall e | e in m'.s.syn ensures Account(m', e) {
      assert Account(m, e);
      if pair !in m.s.pending { PendingAdd(m.s.pending, pair, Request(m.phase.p.time, m.s.count), e); }
    }
  }

  lemma MeasureAccounts(m: Machine, m': Machine)
    requires Accounts(m) && SynOk(m.s) && Step(m, MeasureResponse, m')
    ensures Accounts(m')
  {
    hide Total, Observed, PendingTo, Observe;
    var p := m.phase.p;
    var pair := Pair(p.dst, p.src);
    forall e | e in m'.s.syn ensures Account(m', e) {
      assert Account(m, e);
      if pair in m.s.pending {
        var delta := TvDeltaUs(p.time, m.s.pending[pair].time);
        ObservedAppend(m.s.log, Observation(m.s.pending[pair].id, p.src, delta), e);
        if e == p.src { ObserveTotal(m.s.syn[e], delta); }
      }
    }
  }

  lemma ForgetAccounts(m: Machine, m': Machine)
    requires Accounts(m) && SynOk(m.s) && Step(m, ForgetRequest, m')
    ensures Accounts(m')
  {
    hide Total, Observed, PendingTo;
    var pair := Pair(m.phase.p.dst, m.phase.p.src);
    forall e | e in m'.s.syn ensures Account(m', e) {
      assert Account(m, e);
      PendingRemove(m.s.pending, pair, e);
    }
    PendingFewer(m.s.pending, m'.s.pending, pair.server);
  }

  /** Every step of either thread keeps the accounts. */
  lemma StepAccounts(m: Machine, ev: Event, m': Machine)
    requires Accounts(m) && SynOk(m.s) && Step(m, ev, m')
    ensures Accounts(m') && SynOk(m'.s)
  {
    hide Accounts;
    match ev {
      case Begin(p) => ArriveAccounts(m, p, m');
      case Handshake(granted) => RegisterAccounts(m, granted, m');
      case CountPacket => CountAccounts(m, m');
      case RememberRequest(granted) => RememberAccounts(m, granted, m');
      case MeasureResponse => MeasureAccounts(m, m');
      case ForgetRequest => ForgetAccounts(m, m');
      case Snapshot =>
    }
    AccountsOk(m');
  }

  // ----- each request is measured at most once -----

  /** Requests are numbered by packets: numbers of pending and measured requests are all
      different, except that a request is both while it is being measured. */
  ghost predicate Numbered(m: Machine) {
    && (forall pair :: pair in m.s.pending ==> NumberOk(m, m.s.pending[pair].id))
    && (forall k :: 0 <= k < |m.s.log| ==> NumberOk(m, m.s.log[k].id))
    && (forall a, b :: a in m.s.pending && b in m.s.pending && m.s.pending[a].id == m.s.pending[b].id ==> a == b)
    && (forall j, k :: 0 <= j < k < |m.s.log| ==> m.s.log[j].id != m.s.log[k].id)
    && (forall pair, k :: pair in m.s.pending && 0 <= k < |m.s.log| && m.s.pending[pair].id == m.s.log[k].id ==>
          m.phase.Measured? && pair == Pair(m.phase.p.dst, m.phase.p.src))
  }

  /** The current packet's number is new until its request is remembered. */
  ghost predicate NumberOk(m: Machine,
      id: nat) { id <= m.s.count && (m.phase.Arrived? || m.phase.Asked? ==> id < m.s.count) }

  lemma StepNumbered(m: Machine, ev: Event, m': Machine)
    requires SynOk(m.s) && Numbered(m) && Step(m, ev, m')
    ensures Numbered(m')
  {
    hide Observe, Incr, NewStats, StatsOk, Stale;
    match ev {
      case Begin(p) => ArriveNumbered(m, p, m');
      case Handshake(granted) =>
      case CountPacket =>
      case RememberRequest(granted) => RememberNumbered(m, granted, m');
      case MeasureResponse => MeasureNumbered(m, m');
      case ForgetRequest =>
      case Snapshot =>
    }
  }

  lemma ArriveNumbered(m: Machine, p: Packet, m': Machine)
    requires SynOk(m.s) && Numbered(m) && Step(m, Begin(p), m')
    ensures Numbered(m')
  {
    hide Stale;
  }

  lemma RememberNumbered(m: Machine, granted: bool, m': Machine)
    requires SynOk(m.s) && Numbered(m) && Step(m, RememberRequest(granted), m')
    ensures Numbered(m')
  {
  }

  lemma MeasureNumbered(m: Machine, m': Machine)
    requires SynOk(m.s) && Numbered(m) && Step(m, MeasureResponse, m')
    ensures Numbered(m')
  {
    hide Observe, Incr, NewStats, StatsOk, Stale;
  }

  // ----- capture times that do not go back -----

  ghost predicate Orderly(m: Machine, ev: Event) {
    ev.Begin? && m.s.primed ==> Micros(m.now) <= Micros(ev.p.time)
  }

  /** Every pending request is younger than the timeout plus one sweep interval, and every
      latency that was counted lies below that bound. */
  ghost predicate Timely(m: Machine) {
    && (!m.s.primed ==> m.s.pending == map[] && m.phase.Idle?)
    && (m.s.primed ==> 0 <= Micros(m.now) - Micros(m.s.lastExpire) < EXPIRE_INTERVAL_US)
    && (!m.phase.Idle? ==> m.phase.p.time == m.now)
    && (forall pair :: pair in m.s.pending ==> Recent(m, m.s.pending[pair]))
    && (forall k :: 0 <= k < |m.s.log| ==> 0 <= m.s.log[k].latency < REQUEST_TIMEOUT_US + EXPIRE_INTERVAL_US)
  }

  ghost predicate Recent(m: Machine, r: Request) {
    && Micros(r.time) <= Micros(m.now)
    && Micros(m.s.lastExpire) - Micros(r.time) <= REQUEST_TIMEOUT_US
    && Micros(m.now) - Micros(r.time) < REQUEST_TIMEOUT_US + EXPIRE_INTERVAL_US
  }

  lemma ArriveTimely(m: Machine, p: Packet, m': Machine)
    requires SynOk(m.s) && Timely(m) && Step(m, Begin(p), m') && Orderly(m, Begin(p))
    ensures Timely(m')
  {
    hide Micros, TvDeltaUs;
    DeltaIsDifference(p.time, m.s.lastExpire);
    forall pair | pair in m'.s.pending ensures Recent(m', m'.s.pending[pair]) {
      DeltaIsDifference(p.time, m.s.pending[pair].time);
      assert Recent(m, m.s.pending[pair]);
    }
  }

  lemma StepTimely(m: Machine, ev: Event, m': Machine)
    requires SynOk(m.s) && Timely(m) && Step(m, ev, m') && Orderly(m, ev)
    ensures Timely(m')
  {
    hide Observe, Incr, NewStats, StatsOk, Stale, Micros, TvDeltaUs, Swept;
    match ev {
      case Begin(p) => ArriveTimely(m, p, m');
      case Handshake(granted) =>
      case CountPacket =>
      case RememberRequest(granted) =>
      case MeasureResponse =>
        var pair := Pair(m.phase.p.dst, m.phase.p.src);
        if pair in m.s.pending {
          DeltaIsDifference(m.phase.p.time, m.s.pending[pair].time);
          assert Recent(m, m.s.pending[pair]);
        }
      case ForgetRequest =>
      case Snapshot =>
    }
  }

  // ----- whole runs -----

  /** Steps that follow each other. */
  ghost predicate Path(ms: seq<Machine>, evs: seq<Event>) {
    |ms| == |evs| + 1 && forall i :: 0 <= i < |evs| ==> StepAt(ms, evs, i)
  }

  /** ms are the states and evs the steps of a run. */
  ghost predicate Run(ms: seq<Machine>, evs: seq<Event>) { Path(ms, evs) && Initial(ms[0]) }

  ghost predicate StepAt(ms: seq<Machine>, evs: seq<Event>, i: nat)
    requires |ms| == |evs| + 1 && i < |evs|
  {
    SynOk(ms[i].s) && Step(ms[i], evs[i], ms[i + 1])
  }

  lemma {:induction false} PathKeeps(ms: seq<Machine>, evs: seq<Event>, i: nat)
    requires Path(ms, evs) && i < |ms| && Accounts(ms[0]) && Numbered(ms[0])
    ensures Accounts(ms[i]) && Numbered(ms[i])
  {
    hide Accounts, Numbered, Step, SynOk;
    if i > 0 {
      PathKeeps(ms, evs, i - 1);
      assert StepAt(ms, evs, i - 1);
      StepAccounts(ms[i - 1], evs[i - 1], ms[i]);
      StepNumbered(ms[i - 1], evs[i - 1], ms[i]);
    }
  }

  /** In every run, at every point, the accounts are right and no request is measured twice. */
  lemma RunSafe(ms: seq<Machine>, evs: seq<Event>, i: nat)
    requires Run(ms, evs) && i < |ms|
    ensures Accounts(ms[i]) && Numbered(ms[i])
  {
    hide Path, Accounts, Numbered;
    InitialSafe(ms[0]);
    PathKeeps(ms, evs, i);
  }

  lemma InitialSafe(m: Machine)
    requires Initial(m)
    ensures Accounts(m) && Numbered(m) && Timely(m)
  {
  }

  lemma {:induction false} PathTimely(ms: seq<Machine>, evs: seq<Event>, i: nat)
    requires Path(ms, evs) && i < |ms| && Timely(ms[0])
    requires forall k :: 0 <= k < |evs| ==> Orderly(ms[k], evs[k])
    ensures Timely(ms[i])
  {
    hide Timely, Step, SynOk, Orderly;
    if i > 0 {
      PathTimely(ms, evs, i - 1);
      assert StepAt(ms, evs, i - 1);
      StepTimely(ms[i - 1], evs[i - 1], ms[i]);
    }
  }

  /** In every run whose capture times do not go back, all pending requests are recent and all
      latencies lie in [0, 61 s). */
  lemma RunTimely(ms: seq<Machine>, evs: seq<Event>, i: nat)
    requires Run(ms, evs) && i < |ms| && forall k :: 0 <= k < |evs| ==> Orderly(ms[k], evs[k])
    ensures Timely(ms[i])
  {
    hide Timely, Orderly;
    InitialSafe(ms[0]);
    PathTimely(ms, evs, i);
  }

  /** What the second thread sees: it takes the lock at some point of a run. */
  lemma SnapshotConsistent(ms: seq<Machine>, evs: seq<Event>, i: nat, e: Endpoint)
    requires Run(ms, evs) && i < |ms| && e in ms[i].s.syn
    ensures var st := ms[i].s.syn[e];
      && Total(st.buckets) <= st.requests && Total(st.buckets) <= st.responses
      && (ms[i].phase.Idle? ==> Total(st.buckets) + PendingTo(ms[i].s.pending, e) <= st.requests)
  {
    hide Total, PendingTo, Observed, Run;
    RunSafe(ms, evs, i);
    assert Account(ms[i], e);
    if ms[i].phase.Measured? && ms[i].phase.p.src == e {
      OnePending(ms[i].s.pending, Pair(ms[i].phase.p.dst, e));
    }
  }

  lemma OnePending(pending: map<Pair, Request>, pair: Pair)
    requires pair in pending
    ensures PendingTo(pending, pair.server) >= 1
  {
    PendingRemove(pending, pair, pair.server);
  }

  // ----- every packet counts once -----

  datatype Target = Nowhere | At(e: Endpoint)

  /** The endpoint at which a step counts a packet. */
  function CountedAt(m: Machine, ev: Event): Target {
    if !ev.CountPacket? || !m.phase.Arrived? then Nowhere
    else
      match DirectionOf(m.s, m.phase.p)
      case Response => At(m.phase.p.src)
      case ToServer => At(m.phase.p.dst)
      case Neither => Nowhere
  }

  /** How many of the first n steps counted a packet at e. */
  function Counted(ms: seq<Machine>, evs: seq<Event>, n: nat, e: Endpoint): nat
    requires n <= |evs| < |ms|
  {
    if n == 0 then 0 else Counted(ms, evs, n - 1, e) + if CountedAt(ms[n - 1], evs[n - 1]) == At(e) then 1 else 0
  }

  function Packets(s: State, e: Endpoint): nat { if e in s.syn then s.syn[e].requests + s.syn[e].responses else 0 }

  lemma StepCounts(m: Machine, ev: Event, m': Machine, e: Endpoint)
    requires SynOk(m.s) && Step(m, ev, m')
    ensures Packets(m'.s, e) == Packets(m.s, e) + if CountedAt(m, ev) == At(e) then 1 else 0
  {
    hide StatsOk, Stale, Swept;
  }

  /** The counters of an endpoint are exactly the packets that were counted there; each packet
      with a payload is counted at one endpoint or at none. */
  lemma {:induction false} PacketsCountedOnce(ms: seq<Machine>, evs: seq<Event>, i: nat, e: Endpoint)
    requires Run(ms, evs) && i < |ms|
    ensures Packets(ms[i].s, e) == Counted(ms, evs, i, e)
  {
    hide Step, SynOk, CountedAt;
    if i > 0 {
      PacketsCountedOnce(ms, evs, i - 1, e);
      assert StepAt(ms, evs, i - 1);
      StepCounts(ms[i - 1], evs[i - 1], ms[i], e);
    }
  }

  // ----- conservation of packets -----

  /** How many packets with a payload have arrived in the first n steps. */
  function Arrivals(evs: seq<Event>, n: nat): nat
    requires n <= |evs|
  {
    if n == 0 then 0 else Arrivals(evs, n - 1) + if evs[n - 1].Begin? && evs[n - 1].p.payload > 0 then 1 else 0
  }

  /** How many of them belonged to no registered endpoint when they were looked up. */
  function Missed(ms: seq<Machine>, evs: seq<Event>, n: nat): nat
    requires n <= |evs| < |ms|
  {
    if n == 0 then 0
    else
      Missed(ms, evs, n - 1) + if evs[n - 1].CountPacket? && CountedAt(ms[n - 1], evs[n - 1]) == Nowhere then 1 else 0
  }

  /** A packet that has arrived and is still to be looked up. */
  function Waiting(m: Machine): nat { if m.phase.Arrived? && m.phase.p.payload > 0 then 1 else 0 }

  /** The packets counted at the given endpoints. */
  function AllPackets(s: State, ends: seq<Endpoint>): nat {
    if ends == [] then 0 else AllPackets(s, ends[..|ends| - 1]) + Packets(s, ends[|ends| - 1])
  }

  lemma {:induction false} StepCountsAll(m: Machine, ev: Event, m': Machine, ends: seq<Endpoint>)
    requires SynOk(m.s) && Step(m, ev, m') && Distinct(ends)
    ensures AllPackets(m'.s, ends)
      == AllPackets(m.s, ends) + if CountedAt(m, ev).At? && CountedAt(m, ev).e in ends then 1 else 0
  {
    hide Step, SynOk, CountedAt, Packets;
    if ends != [] {
      var e := ends[|ends| - 1];
      StepCounts(m, ev, m', e);
      StepCountsAll(m, ev, m', ends[..|ends| - 1]);
      assert ends == ends[..|ends| - 1] + [e];
    }
  }

  /** Endpoints stay registered, and packets are counted at registered ones. */
  lemma StepKeepsEndpoints(m: Machine, ev: Event, m': Machine)
    requires SynOk(m.s) && Step(m, ev, m')
    ensures forall e :: e in m.s.syn ==> e in m'.s.syn
    ensures CountedAt(m, ev).At? ==> CountedAt(m, ev).e in m.s.syn
    ensures Waiting(m') + (if ev.CountPacket? then 1 else 0)
      == Waiting(m) + if ev.Begin? && ev.p.payload > 0 then 1 else 0
  {
    hide StatsOk, Stale, Swept, Observe;
  }

  /** In every run, at every point, every packet with a payload that has arrived is accounted
      for exactly once: counted at one of the registered endpoints, found to belong to none, or
      still to be looked up. */
  lemma {:induction false} PacketsConserved(ms: seq<Machine>, evs: seq<Event>, i: nat, ends: seq<Endpoint>)
    requires Run(ms, evs) && i < |ms| && Distinct(ends) && forall e :: e in ms[i].s.syn ==> e in ends
    ensures AllPackets(ms[i].s, ends) + Missed(ms, evs, i) + Waiting(ms[i]) == Arrivals(evs, i)
  {
    hide Step, SynOk, CountedAt, Packets;
    if i == 0 {
      NoPackets(ms[0].s, ends);
    } else {
      assert StepAt(ms, evs, i - 1);
      StepKeepsEndpoints(ms[i - 1], evs[i - 1], ms[i]);
      PacketsConserved(ms, evs, i - 1, ends);
      StepCountsAll(ms[i - 1], evs[i - 1], ms[i], ends);
      CountsOnlyWhenCounting(ms[i - 1], evs[i - 1]);
    }
  }

  lemma CountsOnlyWhenCounting(m: Machine, ev: Event)
    ensures CountedAt(m, ev).At? ==> ev.CountPacket?
  {
  }

  lemma {:induction false} NoPackets(s: State, ends: seq<Endpoint>)
    requires s.syn == map[]
    ensures AllPackets(s, ends) == 0
  {
    if ends != [] { NoPackets(s, ends[..|ends| - 1]); }
  }

  // ----- one packet without interruption -----

  /** What process_user_packet does to the state. */
  function Process(s: State, p: Packet, granted: bool): State
    requires SynOk(s)
  {
    var s1 := Arrive(s, p.time);
    if p.payload == 0 then Register(s1, p, granted)
    else
      var s2 := Count(s1, p);
      match DirectionOf(s1, p)
      case Response => if Pair(p.dst, p.src) in s2.pending then Forget(Measure(s2, p), p) else s2
      case ToServer => Remember(s2, p, granted)
      case Neither => s2
  }

  lemma CountOk(s: State, p: Packet)
    requires SynOk(s)
    ensures SynOk(Count(s, p))
  {
  }

  /** It is a run of the capture thread's steps, from between packets to between packets. */
  lemma ProcessIsPath(m: Machine, p: Packet, granted: bool) returns (ms: seq<Machine>, evs: seq<Event>)
    requires m.phase.Idle? && SynOk(m.s)
    ensures Path(ms, evs) && ms[0] == m && ms[|evs|] == Machine(Process(m.s, p, granted), Idle, p.time)
    ensures evs[0] == Begin(p) && forall k :: 0 < k < |evs| ==> !evs[k].Begin?
  {
    hide Observe, Swept, StatsOk;
    CountOk(Arrive(m.s, p.time), p);
    var m1 := Machine(Arrive(m.s, p.time), Arrived(p), p.time);
    if p.payload == 0 {
      ms := [m, m1, Machine(Register(m1.s, p, granted), Idle, p.time)];
      evs := [Begin(p), Handshake(granted)];
    } else {
      var s2 := Count(m1.s, p);
      match DirectionOf(m1.s, p)
      case Neither =>
        ms := [m, m1, Machine(s2, Idle, p.time)];
        evs := [Begin(p), CountPacket];
      case ToServer =>
        ms := [m, m1, Machine(s2, Asked(p), p.time), Machine(Remember(s2, p, granted), Idle, p.time)];
        evs := [Begin(p), CountPacket, RememberRequest(granted)];
      case Response =>
        var m2 := Machine(s2, Answered(p), p.time);
        if Pair(p.dst, p.src) in s2.pending {
          var m3 := Machine(Measure(s2, p), Measured(p), p.time);
          ms := [m, m1, m2, m3, Machine(Forget(m3.s, p), Idle, p.time)];
          evs := [Begin(p), CountPacket, MeasureResponse, ForgetRequest];
        } else {
          ms := [m, m1, m2, m2.(phase := Idle)];
          evs := [Begin(p), CountPacket, MeasureResponse];
        }
    }
  }
}
