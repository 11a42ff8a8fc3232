/**
 The capture thread of src/packet.c on its two hash tables, with the counters of src/stats.c
 and the snapshot of src/server.c.
 */
module Sniffer {
  import opened Basics
  import opened HashTable
  import opened Tracker
  import opened TrackerRuns
  import opened Keys
  import History

  // ----- counters -----

  /** struct query_stats. */
  class QueryStats {
    var requests: nat
    var requestBytes: nat
    var responses: nat
    var responseBytes: nat
    var buckets: seq<nat>

    function View(): Stats
      reads this
    {
      Stats(requests, requestBytes, responses, responseBytes, buckets)
    }

    /** calloc: everything is 0. */
    constructor ()
      ensures View() == NewStats()
    {
      requests, requestBytes, responses, responseBytes := 0, 0, 0, 0;
      buckets := seq(LATENCY_BUCKETS, _ => 0);
    }

    /** stats_incr. */
    method Incr(isRequest: bool, bytes: nat)
      modifies this
      ensures View() == Tracker.Incr(old(View()), isRequest, bytes)
    {
      if isRequest {
        requests, requestBytes := requests + 1, requestBytes + bytes;
      } else {
        responses, responseBytes := responses + 1, responseBytes + bytes;
      }
    }

    /** stats_observer_latency: the search through the table. */
    method ObserverLatency(latency: int)
      requires StatsOk(View())
      modifies this
      ensures View() == Observe(old(View()), latency)
    {
      hide BucketOf, InBucket;
      var l := if latency < 0 then 0 else latency;
      var i := 0;
      while i < LATENCY_BUCKETS - 1
        invariant View() == old(View())
        invariant 0 <= i < LATENCY_BUCKETS && (i > 0 ==> UPPER_US[i - 1] < l) && BucketOf(l, 0) == BucketOf(l, i)
      {
        if UPPER_US[i] >= l { break; }
        BucketStep(l, i);
        i := i + 1;
      }
      BucketHere(l, i);
      buckets := buckets[i := buckets[i] + 1];
    }
  }

  // ----- tables and maps -----

  /** The table of pending requests holds the map, under the spelled keys. */
  ghost predicate PendingAgrees(table: map<Bytes, Request>, pending: map<Pair, Request>) {
    && (forall p :: p in pending <==> SpellPair(p) in table)
    && (forall p :: p in pending ==> table[SpellPair(p)] == pending[p])
    && (forall k :: k in table ==> IsPair(k))
  }

  ghost predicate IsPair(k: Bytes) { exists p :: SpellPair(p) == k }

  lemma PendingStart()
    ensures PendingAgrees(map[], map[])
  {
  }

  lemma PendingInsert(table: map<Bytes, Request>, pending: map<Pair, Request>, p: Pair, r: Request)
    requires PendingAgrees(table, pending)
    ensures PendingAgrees(table[SpellPair(p) := r], pending[p := r])
  {
    hide SpellPair;
    forall q ensures SpellPair(q) == SpellPair(p) <==> q == p {
      if SpellPair(q) == SpellPair(p) { SpellPairInjective(q, p); }
    }
  }

  lemma PendingDelete(table: map<Bytes, Request>, pending: map<Pair, Request>, p: Pair)
    requires PendingAgrees(table, pending)
    ensures PendingAgrees(table - {SpellPair(p)}, pending - {p})
  {
    hide SpellPair;
    forall q ensures SpellPair(q) == SpellPair(p) <==> q == p {
      if SpellPair(q) == SpellPair(p) { SpellPairInjective(q, p); }
    }
  }

  lemma PendingSwept(table: map<Bytes, Request>, pending: map<Pair, Request>, now: Time, timeout: int)
    requires PendingAgrees(table, pending)
    ensures PendingAgrees(map k | k in table && !Stale(table[k], now, timeout) ::
      table[k], Swept(pending, now, timeout))
  {
    hide SpellPair, Stale;
  }

  /** Both have the same size. */
  lemma {:induction false} PendingSize(table: map<Bytes, Request>, pending: map<Pair, Request>)
    requires PendingAgrees(table, pending)
    ensures |table| == |pending|
    decreases |pending|
  {
    hide SpellPair;
    if k :| k in table {
      var p :| SpellPair(p) == k;
      PendingDelete(table, pending, p);
      PendingSize(table - {k}, pending - {p});
      assert |table - {k}| == |table| - 1 && |pending - {p}| == |pending| - 1;
    } else {
      assert table == map[];
      if p :| p in pending { assert SpellPair(p) in table; }
      assert pending == map[];
    }
  }

  /** The table of pending requests (sniffer->requests), which the capture thread owns. */
  class Connections {
    const table: Table<Request>
    ghost var pending: map<Pair, Request>

    ghost function Repr(): set<object>
      reads this, table
    {
      {this, table, table.buckets} + table.nodes
    }

    ghost predicate Valid()
      reads this, table, table.buckets, table.nodes
    {
      table.Valid() && PendingAgrees(table.model, pending)
    }

    constructor (nbucket: nat, hash: Bytes -> nat)
      requires nbucket > 0
      ensures Valid() && pending == map[] && fresh(Repr())
    {
      hide Table.Valid;
      table := new Table(nbucket, hash);
      pending := map[];
      new;
      PendingStart();
    }

    /** The request that is pending on a connection. */
    method Get(p: Pair) returns (found: bool, r: Request)
      requires Valid()
      ensures found <==> p in pending
      ensures found ==> r == pending[p]
    {
      hide Table.Valid, SpellPair, PendingAgrees;
      PendingKey(table.model, pending, p);
      found, r := table.Get(SpellPair(p));
    }

    method Size() returns (n: int)
      requires Valid()
      ensures n == |pending|
    {
      hide Table.Valid, PendingAgrees;
      table.SizeIsCount();
      PendingSize(table.model, pending);
      n := table.size;
    }

    method Insert(p: Pair, r: Request)
      requires Valid() && p !in pending
      modifies Repr()
      ensures Valid() && fresh(Repr() - old(Repr())) && pending == old(pending)[p := r]
    {
      hide Table.Valid, SpellPair, PendingAgrees;
      PendingKey(table.model, pending, p);
      PendingInsert(table.model, pending, p, r);
      var present, already := table.Add(SpellPair(p), r, true);
      pending := pending[p := r];
    }

    method Remove(p: Pair)
      requires Valid()
      modifies Repr()
      ensures Valid() && fresh(Repr() - old(Repr())) && pending == old(pending) - {p}
    {
      hide Table.Valid, SpellPair, PendingAgrees;
      PendingDelete(table.model, pending, p);
      var removed := table.Del(SpellPair(p));
      pending := pending - {p};
    }

    /** requests_expire: sweep the table. */
    method Expire(t: Time, timeout: int) returns (removed: nat)
      requires Valid()
      modifies Repr()
      ensures Valid() && fresh(Repr() - old(Repr())) && pending == Swept(old(pending), t, timeout)
      ensures removed == |old(pending)| - |pending|
    {
      hide Table.Valid, Swept, PendingAgrees;
      PendingSize(table.model, pending);
      PendingSwept(table.model, pending, t, timeout);
      ghost var m := table.model;
      removed := table.Sweep((r: Request) => Stale(r, t, timeout));
      assert table.model == map k | k in m && !Stale(m[k], t, timeout) :: m[k];
      pending := Swept(pending, t, timeout);
      PendingSize(table.model, pending);
    }
  }

  /** The table of server endpoints and their counters (sniffer->syn_tab). */
  class Endpoints {
    const table: Table<QueryStats?>
    ghost var view: map<Endpoint, Stats>
    /** The counter objects in use. */
    ghost var stats: set<QueryStats>

    ghost function Repr(): set<object>
      reads this, table
    {
      {this, table, table.buckets} + table.nodes + stats
    }

    /** Endpoint e is registered with its own counters. */
    ghost predicate SynAt(e: Endpoint)
      reads this, table, stats
    {
      && (e in view <==> Spell(e) in table.model)
      && (e in view ==>
            && table.model[Spell(e)] != null && table.model[Spell(e)] in stats
            && table.model[Spell(e)].View() == view[e] && StatsOk(view[e]))
    }

    ghost predicate OwnCounters()
      reads this, table
    {
      && (forall k, l :: k in table.model && l in table.model && k != l ==> table.model[k] != table.model[l])
      && (forall k :: k in table.model ==> IsEndpoint(k))
    }

    ghost predicate Apart()
      reads this, table
    {
      var a: set<object>, b: set<object> := {table, table.buckets} + table.nodes, stats;
      a !! b && this !in a + b
    }

    ghost predicate Valid()
      reads this, table, table.buckets, table.nodes, stats
    {
      table.Valid() && Apart() && OwnCounters() && forall e :: SynAt(e)
    }

    constructor (nbucket: nat, hash: Bytes -> nat)
      requires nbucket > 0
      ensures Valid() && view == map[] && fresh(Repr())
    {
      hide Table.Valid, SynAt, OwnCounters;
      table := new Table(nbucket, hash);
      view, stats := map[], {};
      new;
      NothingEntered();
    }

    lemma NothingEntered()
      requires view == map[] && table.model == map[]
      ensures OwnCounters() && forall e :: SynAt(e)
    {
      hide Spell, IsEndpoint, StatsOk;
    }

    /** The counters of an endpoint, if it is registered. */
    method Lookup(e: Endpoint) returns (q: QueryStats?)
      requires Valid()
      ensures e !in view ==> q == null
      ensures e in view ==>
        q != null && q in stats && Spell(e) in table.model && q == table.model[Spell(e)] && q.View() == view[e]
          && StatsOk(view[e])
    {
      hide Table.Valid, Spell, StatsOk;
      assert SynAt(e);
      var found, value := table.Get(Spell(e));
      q := if found then value else null;
    }

    /** stats_incr on an endpoint's counters, if it is registered. */
    method Count(e: Endpoint, isRequest: bool, bytes: nat) returns (found: bool)
      requires Valid()
      modifies this`view, stats
      ensures Valid() && Repr() == old(Repr()) && (found <==> e in old(view))
      ensures view == if e in old(view) then old(view)[e := Tracker.Incr(old(view)[e], isRequest, bytes)] else old(view)
    {
      hide Table.Valid, Spell;
      var q := Lookup(e);
      found := q != null;
      if found {
        q.Incr(isRequest, bytes);
        view := view[e := Tracker.Incr(view[e], isRequest, bytes)];
        forall f ensures SynAt(f) {
          assert old(SynAt(f));
          if f != e { KeysDiffer(f, e); }
        }
      }
    }

    /** stats_observer_latency on an endpoint's counters, if it is registered. */
    method Observe(e: Endpoint, latency: int) returns (found: bool)
      requires Valid()
      modifies this`view, stats
      ensures Valid() && Repr() == old(Repr()) && (found <==> e in old(view)) && (found ==> StatsOk(old(view)[e]))
      ensures view == if found then old(view)[e := Tracker.Observe(old(view)[e], latency)] else old(view)
    {
      hide Table.Valid, Spell, Tracker.Observe;
      var q := Lookup(e);
      found := q != null;
      if found {
        ObserveOk(view[e], latency);
        q.ObserverLatency(latency);
        view := view[e := Tracker.Observe(view[e], latency)];
        forall f ensures SynAt(f) {
          assert old(SynAt(f));
          if f != e { KeysDiffer(f, e); }
        }
      }
    }

    /** Register an endpoint with fresh counters, unless it is registered or memory is short. */
    method Register(e: Endpoint, granted: bool)
      requires Valid()
      modifies Repr()
      ensures Valid() && fresh(Repr() - old(Repr()))
      ensures view == if e in old(view) || !granted then old(view) else old(view)[e := NewStats()]
    {
      hide Table.Valid, Spell, NewStats, IsEndpoint, StatsOk;
      assert SynAt(e);
      var found, value := table.Get(Spell(e));
      if found || !granted { return; }
      var q := new QueryStats();
      Enter(e, q);
    }

    /** Put new counters into the table. */
    method Enter(e: Endpoint, q: QueryStats)
      requires Valid() && e !in view && Spell(e) !in table.model && q !in Repr() && q.View() == NewStats()
      modifies this, table, table.buckets
      ensures Valid() && fresh(Repr() - old(Repr()) - {q}) && view == old(view)[e := NewStats()]
    {
      hide Table.Valid, Spell, NewStats, IsEndpoint, StatsOk;
      ValuesInUse();
      NewOk();
      SpelledEndpoint(e);
      var present, already := table.Add(Spell(e), q, true);
      view, stats := view[e := NewStats()], stats + {q};
      forall f ensures SynAt(f) {
        assert old(SynAt(f));
        if f != e { KeysDiffer(f, e); }
      }
    }

    /** The locked part of server_stats_to_json: what hashtable_values gives, read under the
        lock.  Every endpoint is in the list at most once, and all are if memory allows. */
    method Snapshot(grants: nat) returns (list: seq<Stats>, ghost order: seq<Endpoint>)
      requires Valid()
      ensures |list| == |order| == if |view| <= Room(grants) then |view| else Room(grants)
      ensures forall i :: 0 <= i < |order| ==> order[i] in view && list[i] == view[order[i]]
      ensures forall i, j :: 0 <= i < j < |order| ==> order[i] != order[j]
      ensures |view| <= Room(grants) ==> forall e :: e in view ==> e in order
    {
      hide Table.Valid, Spell, StatsOk, Listed, IsEndpoint;
      list, order := [], [];
      var values, cnt;
      ghost var keys;
      values, cnt, keys := table.Values(grants);
      ListedKeys(values, cnt, keys, table.model);
      SameSize();
      var read := if values == null then [] else values[..cnt];
      for i := 0 to cnt
        invariant |list| == |order| == i
        invariant forall j :: 0 <= j < i ==> Spell(order[j]) == keys[j] && order[j] in view && list[j] == view[order[j]]
      {
        assert IsEndpoint(keys[i]) && keys[i] in table.model;
        ghost var e := EndpointOf(keys[i]);
        assert SynAt(e);
        list, order := list + [read[i].View()], order + [e];
      }
      if |view| <= Room(grants) {
        forall e | e in view ensures e in order {
          assert SynAt(e);
          ghost var j :| 0 <= j < |keys| && keys[j] == Spell(e);
          if order[j] != e { KeysDiffer(order[j], e); }
        }
      }
    }

    /** Every counter object in the table is one of those in use. */
    lemma ValuesInUse()
      requires Valid()
      ensures forall k :: k in table.model ==> table.model[k] != null && table.model[k] in stats
    {
      hide Table.Valid, Spell, StatsOk, IsEndpoint;
      forall k | k in table.model ensures table.model[k] != null && table.model[k] in stats {
        assert IsEndpoint(k);
        var e := EndpointOf(k);
        assert SynAt(e);
      }
    }

    lemma SameSize()
      requires Valid()
      ensures |table.model| == |view|
    {
      hide Table.Valid, Spell, StatsOk, IsEndpoint;
      forall e ensures e in view <==> Spell(e) in table.model { assert SynAt(e); }
      SameKeys(table.model.Keys, view.Keys);
      assert |table.model.Keys| == |table.model| && |view.Keys| == |view|;
    }

    /** All counters have all buckets. */
    lemma AllOk()
      requires Valid()
      ensures forall e :: e in view ==> StatsOk(view[e])
    {
      hide Table.Valid, Spell, StatsOk;
      forall e | e in view ensures StatsOk(view[e]) { assert SynAt(e); }
    }
  }

  // ----- the sniffer -----

  class Sniffer {
    const endpoints: Endpoints
    const connections: Connections
    var lastExpire: Time
    var primed: bool
    /** The number of packets so far, which tells requests apart. */
    var count: nat
    /** The latencies counted so far. */
    ghost var log: seq<Observation>

    /** What the tables and fields stand for. */
    ghost function Now(): State
      reads this, endpoints, connections
    {
      State(endpoints.view, connections.pending, primed, lastExpire, count, log)
    }

    ghost function Repr(): set<object>
      reads this, endpoints, endpoints.table, connections, connections.table
    {
      {this} + endpoints.Repr() + connections.Repr()
    }

    ghost predicate Valid()
      reads this, endpoints, endpoints.table, connections, connections.table, endpoints.Repr(), connections.Repr()
    {
      && endpoints.Valid() && connections.Valid()
      && endpoints.Repr() !! connections.Repr() && this !in endpoints.Repr() + connections.Repr()
    }

    /** Two empty tables, with any number of buckets and any hash function. */
    constructor (nbucket: nat, hash: Bytes -> nat)
      requires nbucket > 0
      ensures Valid() && fresh(Repr()) && Initial(Machine(Now(), Idle, lastExpire))
    {
      hide Endpoints.Valid, Connections.Valid;
      endpoints := new Endpoints(nbucket, hash);
      connections := new Connections(nbucket, hash);
      lastExpire, primed, count, log := Time(0, 0), false, 0, [];
    }

    /** expire_stale_requests: prime the clock at the first packet, then sweep at most once per
        interval of capture time. */
    method ExpireStaleRequests(t: Time)
      requires Valid()
      modifies this`count, this`primed, this`lastExpire, connections.Repr()
      ensures Valid() && fresh(connections.Repr() - old(connections.Repr())) && Now() == Arrive(old(Now()), t)
    {
      hide Endpoints.Valid, Connections.Valid, Swept;
      count := count + 1;
      if !primed {
        primed, lastExpire := true, t;
        return;
      }
      if TvDeltaUs(t, lastExpire) < EXPIRE_INTERVAL_US { return; }
      lastExpire := t;
      var removed := connections.Expire(t, REQUEST_TIMEOUT_US);
    }

    /** packet_direction: count the packet at the endpoint it belongs to. */
    method PacketDirection(p: Packet) returns (direction: Direction)
      requires Valid()
      modifies endpoints`view, endpoints.stats
      ensures Valid() && endpoints.Repr() == old(endpoints.Repr())
      ensures Now() == Tracker.Count(old(Now()), p) && direction == DirectionOf(old(Now()), p)
    {
      hide Endpoints.Valid, Connections.Valid, Incr;
      var found := endpoints.Count(p.src, false, p.size);
      if found { return Response; }
      found := endpoints.Count(p.dst, true, p.size);
      direction := if found then ToServer else Neither;
    }

    /** process_request_packet; granted says whether memory was. */
    method ProcessRequestPacket(p: Packet, granted: bool)
      requires Valid()
      modifies connections.Repr()
      ensures Valid() && fresh(connections.Repr() - old(connections.Repr()))
      ensures Now() == Remember(old(Now()), p, granted)
    {
      hide Endpoints.Valid, Connections.Valid;
      var found, request := connections.Get(Pair(p.src, p.dst));
      if found { return; }
      var size := connections.Size();
      if size >= MAX_PENDING_REQUESTS || !granted { return; }
      connections.Insert(Pair(p.src, p.dst), Request(p.time, count));
    }

    /** process_response_packet: under the lock the latency is counted; then the request is
        removed, whether or not it is below the threshold for printing. */
    method ProcessResponsePacket(p: Packet)
      requires Valid()
      modifies this`log, endpoints`view, endpoints.stats, connections.Repr()
      ensures Valid() && fresh(connections.Repr() - old(connections.Repr()))
      ensures endpoints.Repr() == old(endpoints.Repr())
      ensures SynOk(old(Now()))
      ensures Now() ==
        if Pair(p.dst, p.src) in old(Now()).pending then Forget(Measure(old(Now()), p), p) else old(Now())
    {
      hide Endpoints.Valid, Connections.Valid, Observe, StatsOk;
      endpoints.AllOk();
      var found, request := connections.Get(Pair(p.dst, p.src));
      if !found { return; }
      var delta := TvDeltaUs(p.time, request.time);
      var counted := endpoints.Observe(p.src, delta);
      if counted { log := log + [Observation(request.id, p.src, delta)]; }
      connections.Remove(Pair(p.dst, p.src));
    }

    /** The handshake part of process_user_packet: register the server's endpoint. */
    method RegisterServer(p: Packet, granted: bool)
      requires Valid()
      modifies endpoints.Repr()
      ensures Valid() && fresh(endpoints.Repr() - old(endpoints.Repr())) && Now() == Register(old(Now()), p, granted)
    {
      hide Endpoints.Valid, Connections.Valid;
      if p.syn { endpoints.Register(if p.ack then p.src else p.dst, granted); }
    }

    /** process_user_packet, for a protocol that is tracked. */
    method ProcessUserPacket(p: Packet, granted: bool)
      requires Valid()
      modifies Repr()
      ensures Valid() && fresh(Repr() - old(Repr())) && SynOk(old(Now())) && Now() == Process(old(Now()), p, granted)
    {
      hide Endpoints.Valid, Connections.Valid, Swept, Observe, StatsOk;
      endpoints.AllOk();
      ExpireStaleRequests(p.time);
      if p.payload == 0 {
        RegisterServer(p, granted);
      } else {
        var direction := PacketDirection(p);
        match direction
        case Response => ProcessResponsePacket(p);
        case ToServer => ProcessRequestPacket(p, granted);
        case Neither =>
      }
    }

    /** A whole capture: the accounts are right between packets, and what a snapshot shows then
        is covered by the counted requests and responses. If the capture times do not go back, every
        pending request is younger than 61 s at the last packet and every latency is below 61 s.
        Whatever the times, the endpoints, their counters, the pending requests and the latencies
        are those that the packets tell; pend holds the pending requests after each packet. */
    method ProcessCapture(packets: seq<Packet>, granted: seq<bool>) returns (ghost pend: seq<map<Pair, Request>>)
      requires Valid() && |granted| == |packets| && Initial(Machine(Now(), Idle, lastExpire))
      modifies Repr()
      ensures Valid() && Accounts(Between()) && Numbered(Between())
      ensures forall e :: e in endpoints.view ==> Covered(endpoints.view[e], PendingTo(connections.pending, e))
      ensures packets != [] && InOrder(packets) ==>
        && (forall c :: c in connections.pending ==> Young(connections.pending[c], packets[|packets| - 1].time))
        && (forall k :: 0 <= k < |log| ==> 0 <= log[k].latency < 61_000_000)
      ensures |pend| == |packets| + 1 && pend[|packets|] == connections.pending
      ensures History.Told(packets, granted, |packets|, pend, endpoints.view, log)
    {
      hide Valid, Along;
      pend := StartOf(packets, granted);
      ghost var now := lastExpire;
      for i := 0 to |packets|
        invariant Valid() && fresh(Repr() - old(Repr())) && Along(packets, granted, i, pend, now)
      {
        pend, now := NextPacket(packets, granted, i, pend, now);
      }
      EndOf(packets, granted, pend, now);
    }

    /** Where a capture stands after i packets. */
    ghost predicate Along(packets: seq<Packet>, granted: seq<bool>, i: nat, pend: seq<map<Pair, Request>>, now: Time)
      requires i <= |packets| == |granted|
      reads this, endpoints, connections
    {
      && Accounts(Between()) && Numbered(Between())
      && (InOrder(packets) ==> Timely(At(now)) && if i == 0 then !primed else now == packets[i - 1].time)
      && |pend| == i + 1 && pend[i] == connections.pending && count == i && History.Clocked(packets, i, Now())
      && History.Told(packets, granted, i, pend, endpoints.view, log)
    }

    lemma StartOf(packets: seq<Packet>, granted: seq<bool>) returns (pend: seq<map<Pair, Request>>)
      requires |packets| == |granted| && Initial(Machine(Now(), Idle, lastExpire))
      ensures Along(packets, granted, 0, pend, lastExpire)
    {
      hide Accounts, Numbered, Timely, Initial, History.Told;
      BeforeFirst();
      History.ToldFirst(packets, granted);
      pend := [map[]];
    }

    lemma EndOf(packets: seq<Packet>, granted: seq<bool>, pend: seq<map<Pair, Request>>, now: Time)
      requires |packets| == |granted| && Along(packets, granted, |packets|, pend, now)
      ensures Accounts(Between()) && Numbered(Between())
      ensures forall e :: e in endpoints.view ==> Covered(endpoints.view[e], PendingTo(connections.pending, e))
      ensures packets != [] && InOrder(packets) ==>
        && (forall c :: c in connections.pending ==> Young(connections.pending[c], packets[|packets| - 1].time))
        && (forall k :: 0 <= k < |log| ==> 0 <= log[k].latency < 61_000_000)
      ensures |pend| == |packets| + 1 && pend[|packets|] == connections.pending
      ensures History.Told(packets, granted, |packets|, pend, endpoints.view, log)
    {
      hide Between, At, Accounts, Numbered, Timely, Covered, Young, History.Told;
      AfterLast();
      if InOrder(packets) { TimelyYoung(now); }
    }

    method NextPacket(packets: seq<Packet>, granted: seq<bool>, i: nat, ghost pend: seq<map<Pair, Request>>,
        ghost now: Time)
        returns (ghost pend': seq<map<Pair, Request>>, ghost later: Time)
      requires Valid() && i < |packets| == |granted| && Along(packets, granted, i, pend, now)
      modifies Repr()
      ensures Valid() && fresh(Repr() - old(Repr())) && Along(packets, granted, i + 1, pend', later)
    {
      hide Valid, Repr, Between, At, Accounts, Numbered, Timely, Process, History.Told, History.Stepped;
      ghost var before := Now();
      later := ProcessNext(packets[i], granted[i], now);
      History.ToldNext(packets, granted, i, pend, before, Now());
      pend' := pend + [connections.pending];
    }

    /** One packet of a capture. */
    method ProcessNext(p: Packet, granted: bool, ghost now: Time) returns (ghost later: Time)
      requires Valid() && Accounts(Between()) && Numbered(Between())
      modifies Repr()
      ensures Valid() && fresh(Repr() - old(Repr())) && Accounts(Between()) && Numbered(Between())
      ensures later == p.time && History.Stepped(old(Now()), p, granted, Now())
      ensures old(Timely(At(now)) && (primed ==> Micros(now) <= Micros(p.time))) ==> Timely(At(later))
    {
      hide Valid, Repr, Accounts, Numbered, Timely, Process, Initial, SynOk;
      later := p.time;
      ghost var start, clock := Between(), At(now);
      ProcessUserPacket(p, granted);
      ProcessKeeps(start, p, granted, lastExpire);
      if Timely(clock) && (clock.s.primed ==> Micros(now) <= Micros(p.time)) { ProcessTimely(clock, p, granted); }
    }

    lemma BeforeFirst()
      requires Initial(Machine(Now(), Idle, lastExpire))
      ensures Accounts(Between()) && Numbered(Between()) && Timely(At(lastExpire)) && !primed && count == 0
      ensures connections.pending == map[] && endpoints.view == map[] && log == []
    {
      hide Accounts, Numbered, Timely;
      InitialSafe(Between());
    }

    /** Between packets, the clock stands at the time of the last one. */
    ghost function At(now: Time): Machine
      reads this, endpoints, connections
    {
      Machine(Now(), Idle, now)
    }

    lemma TimelyYoung(now: Time)
      requires Timely(At(now))
      ensures forall c :: c in connections.pending ==> Young(connections.pending[c], now)
      ensures forall k :: 0 <= k < |log| ==> 0 <= log[k].latency < 61_000_000
    {
      hide Micros;
      forall c | c in connections.pending ensures Young(connections.pending[c], now) {
        assert Recent(At(now), At(now).s.pending[c]);
      }
    }

    lemma AfterLast()
      requires Accounts(Between())
      ensures forall e :: e in endpoints.view ==> Covered(endpoints.view[e], PendingTo(connections.pending, e))
    {
      hide Accounts, Covered;
      BetweenPackets(Between());
    }

    ghost function Between(): Machine
      reads this, endpoints, connections
    {
      Machine(Now(), Idle, lastExpire)
    }
  }

  /** Every latency belongs to a request and a response, every pending request to a request. */
  predicate Covered(s: Stats, pending: nat) {
    Total(s.buckets) + pending <= s.requests && Total(s.buckets) <= s.responses
  }

  /** Capture times do not go back. */
  ghost predicate InOrder(packets: seq<Packet>) {
    forall i :: 0 < i < |packets| ==> Micros(packets[i - 1].time) <= Micros(packets[i].time)
  }

  /** A request less than 61 s old. */
  predicate Young(r: Request, now: Time) {
    0 <= Micros(now) - Micros(r.time) < 61_000_000
  }

  /** With capture times in order, the clock's bounds hold after the packet as well. */
  lemma ProcessTimely(m: Machine, p: Packet, granted: bool)
    requires m.phase.Idle? && SynOk(m.s) && Timely(m) && (m.s.primed ==> Micros(m.now) <= Micros(p.time))
    ensures Timely(Machine(Process(m.s, p, granted), Idle, p.time))
  {
    hide Process, Step, Timely;
    var ms, evs := ProcessIsPath(m, p, granted);
    PathTimely(ms, evs, |evs|);
  }

  /** Invariants that do not look at the clock. */
  lemma ProcessKeeps(m: Machine, p: Packet, granted: bool, now: Time)
    requires m.phase.Idle? && Accounts(m) && Numbered(m) && SynOk(m.s)
    ensures Accounts(Machine(Process(m.s, p, granted), Idle, now))
    ensures Numbered(Machine(Process(m.s, p, granted), Idle, now))
  {
    hide Process, Step;
    var ms, evs := ProcessIsPath(m, p, granted);
    PathKeeps(ms, evs, |evs|);
    OtherClock(ms[|evs|], now);
  }

  lemma OtherClock(m: Machine, now: Time)
    requires Accounts(m) && Numbered(m)
    ensures Accounts(m.(now := now)) && Numbered(m.(now := now))
  {
    hide Total, Observed, PendingTo;
    forall e | e in m.s.syn ensures Account(m.(now := now), e) { assert Account(m, e); }
  }

  lemma BetweenPackets(m: Machine)
    requires m.phase.Idle? && Accounts(m)
    ensures forall e :: e in m.s.syn ==> Covered(m.s.syn[e], PendingTo(m.s.pending, e))
  {
    hide Total, Observed, PendingTo;
    forall e | e in m.s.syn ensures Covered(m.s.syn[e], PendingTo(m.s.pending, e)) {
      assert Account(m, e);
    }
  }

  ghost predicate IsEndpoint(k: Bytes) { exists e :: Spell(e) == k }

  lemma SpelledEndpoint(e: Endpoint)
    ensures IsEndpoint(Spell(e))
  {
  }

  ghost function EndpointOf(k: Bytes): (e: Endpoint)
    requires IsEndpoint(k)
    ensures Spell(e) == k
  {
    var e :| Spell(e) == k; e
  }

  lemma {:induction false} SameKeys(keys: set<Bytes>, ends: set<Endpoint>)
    requires (forall e :: e in ends <==> Spell(e) in keys) && forall k :: k in keys ==> IsEndpoint(k)
    ensures |keys| == |ends|
    decreases |keys|
  {
    hide Spell, IsEndpoint;
    if k :| k in keys {
      var e := EndpointOf(k);
      forall f ensures f in ends - {e} <==> Spell(f) in keys - {k} {
        if f != e { KeysDiffer(f, e); }
      }
      SameKeys(keys - {k}, ends - {e});
    } else {
      assert ends == {};
    }
  }

  lemma KeysDiffer(e: Endpoint, f: Endpoint)
    requires e != f
    ensures Spell(e) != Spell(f)
  {
    hide Spell;
    if Spell(e) == Spell(f) { SpellInjective(e, f); }
  }

  lemma PendingKey(table: map<Bytes, Request>, pending: map<Pair, Request>, p: Pair)
    requires PendingAgrees(table, pending)
    ensures p in pending <==> SpellPair(p) in table
    ensures p in pending ==> table[SpellPair(p)] == pending[p]
  {
    hide SpellPair;
  }

  lemma ObserveOk(s: Stats, latency: int)
    requires StatsOk(s)
    ensures StatsOk(Observe(s, latency))
  {
  }

  lemma NewOk()
    ensures StatsOk(NewStats())
  {
  }
}
