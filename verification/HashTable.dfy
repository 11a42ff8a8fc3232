/**
 The chained hash table of src/hashtable.c.  Keys are C strings, the hash function is
 arbitrary.  Memory may run out: then an entry is not added, or a list of values is cut short.
 */
module HashTable {
  import opened Basics

  class Entry<V> {
    const key: Bytes
    const value: V
    var next: Entry?<V>

    constructor (key: Bytes, value: V, next: Entry?<V>)
      ensures this.key == key && this.value == value && this.next == next
    {
      this.key, this.value, this.next := key, value, next;
    }
  }

  // ----- chains -----

  function First<V>(c: seq<Entry<V>>): Entry?<V> { if c == [] then null else c[0] }

  /** What the j-th entry of a chain points to. */
  function Following<V>(c: seq<Entry<V>>, j: nat): Entry?<V> { if j + 1 < |c| then c[j + 1] else null }

  ghost predicate UniqueKeys<V>(c: seq<Entry<V>>) {
    forall j, k :: 0 <= j < k < |c| ==> c[j].key != c[k].key
  }

  /** The entries of one bucket stand for the part of the map that hashes to it. */
  ghost predicate Represents<V>(c: seq<Entry<V>>, m: map<Bytes, V>, hash: Bytes -> nat, n: nat, b: nat)
    requires n > 0
  {
    && UniqueKeys(c)
    && (forall j :: 0 <= j < |c| ==> c[j].key in m && m[c[j].key] == c[j].value && hash(c[j].key) % n == b)
    && (forall key :: key in m && hash(key) % n == b ==> HasKey(c, key))
  }

  ghost predicate HasKey<V>(c: seq<Entry<V>>, key: Bytes) {
    exists j :: 0 <= j < |c| && c[j].key == key
  }

  ghost function Without<V>(c: seq<Entry<V>>, j: nat): seq<Entry<V>>
    requires j < |c|
  {
    c[..j] + c[j + 1..]
  }

  lemma WithoutFirst<V>(c: seq<Entry<V>>, j: nat)
    requires j < |c|
    ensures |Without(c, j)| == |c| - 1 && First(Without(c, j)) == if j == 0 then Following(c, 0) else First(c)
  {
  }

  lemma WithoutAt<V>(c: seq<Entry<V>>, j: nat, k: nat)
    requires j < |c| && k < |Without(c, j)| == |c| - 1
    ensures Without(c, j)[k] == if k >= j then c[k + 1] else c[k]
    ensures Following(Without(c, j), k) == if k == j - 1 then Following(c, j)
      else Following(c, if k >= j then k + 1 else k)
  {
  }

  lemma WithoutRepresents<V>(c: seq<Entry<V>>, j: nat, m: map<Bytes, V>, hash: Bytes -> nat, n: nat, b: nat)
    requires n > 0 && Represents(c, m, hash, n, b) && j < |c|
    ensures Represents(Without(c, j), m - {c[j].key}, hash, n, b)
  {
    var d, m' := Without(c, j), m - {c[j].key};
    forall i | 0 <= i < |d| ensures d[i].key != c[j].key && d[i].key in m && m[d[i].key] == d[i].value
      && hash(d[i].key) % n == b {
      assert d[i] == if i < j then c[i] else c[i + 1];
    }
    forall i, k | 0 <= i < k < |d| ensures d[i].key != d[k].key {
      assert d[i] == if i < j then c[i] else c[i + 1];
      assert d[k] == if k < j then c[k] else c[k + 1];
    }
    forall key | key in m' && hash(key) % n == b ensures HasKey(d, key) {
      assert HasKey(c, key);
      var i :| 0 <= i < |c| && c[i].key == key;
      assert d[if i < j then i else i - 1] == c[i];
    }
  }

  /** Removing a key does not concern the other buckets. */
  lemma OtherRepresents<V>(c: seq<Entry<V>>, key: Bytes, m: map<Bytes, V>, hash: Bytes -> nat, n: nat, b: nat)
    requires n > 0 && Represents(c, m, hash, n, b) && hash(key) % n != b
    ensures Represents(c, m - {key}, hash, n, b)
  {
  }

  lemma PrependRepresents<V>(c: seq<Entry<V>>, e: Entry<V>, m: map<Bytes, V>, hash: Bytes -> nat, n: nat, b: nat)
    requires n > 0 && Represents(c, m, hash, n, b) && hash(e.key) % n == b && e.key !in m
    ensures Represents([e] + c, m[e.key := e.value], hash, n, b)
  {
    var d, m' := [e] + c, m[e.key := e.value];
    forall key | key in m' && hash(key) % n == b ensures HasKey(d, key) {
      if key == e.key {
        assert d[0].key == key;
      } else {
        assert HasKey(c, key);
        var i :| 0 <= i < |c| && c[i].key == key;
        assert d[i + 1] == c[i];
      }
    }
  }

  lemma OtherRepresentsMore<V>(c: seq<Entry<V>>, key: Bytes, v: V, m: map<Bytes, V>, hash: Bytes -> nat, n: nat,
      b: nat)
    requires n > 0 && Represents(c, m, hash, n, b) && hash(key) % n != b
    ensures Represents(c, m[key := v], hash, n, b)
  {
  }

  ghost predicate AllRepresent<V>(chains: seq<seq<Entry<V>>>, m: map<Bytes, V>, hash: Bytes -> nat) {
    |chains| > 0 && forall b :: 0 <= b < |chains| ==> Represents(chains[b], m, hash, |chains|, b)
  }

  lemma AddToAll<V>(chains: seq<seq<Entry<V>>>, b: nat, e: Entry<V>, m: map<Bytes, V>, hash: Bytes -> nat)
    requires AllRepresent(chains, m, hash) && b == hash(e.key) % |chains| && e.key !in m
    ensures AllRepresent(chains[b := [e] + chains[b]], m[e.key := e.value], hash)
  {
    hide Represents;
    PrependRepresents(chains[b], e, m, hash, |chains|, b);
    forall i | 0 <= i < |chains| && i != b ensures Represents(chains[i], m[e.key := e.value], hash, |chains|, i) {
      OtherRepresentsMore(chains[i], e.key, e.value, m, hash, |chains|, i);
    }
  }

  lemma RemoveFromAll<V>(chains: seq<seq<Entry<V>>>, b: nat, j: nat, m: map<Bytes, V>, hash: Bytes -> nat)
    requires AllRepresent(chains, m, hash) && b < |chains| && j < |chains[b]|
    ensures AllRepresent(chains[b := Without(chains[b], j)], m - {chains[b][j].key}, hash) && chains[b][j].key in m
  {
    var key := chains[b][j].key;
    assert Represents(chains[b], m, hash, |chains|, b);
    assert hash(key) % |chains| == b;
    RemoveRest(chains, b, key, m, hash);
    WithoutRepresents(chains[b], j, m, hash, |chains|, b);
    hide Represents;
  }

  lemma RemoveRest<V>(chains: seq<seq<Entry<V>>>, b: nat, key: Bytes, m: map<Bytes, V>, hash: Bytes -> nat)
    requires AllRepresent(chains, m, hash) && b < |chains| && hash(key) % |chains| == b
    ensures forall i :: 0 <= i < |chains| && i != b ==> Represents(chains[i], m - {key}, hash, |chains|, i)
  {
    hide Represents;
    forall i | 0 <= i < |chains| && i != b ensures Represents(chains[i], m - {key}, hash, |chains|, i) {
      OtherRepresents(chains[i], key, m, hash, |chains|, i);
    }
  }

  /** No entry occurs twice. */
  lemma EntriesDiffer<V>(chains: seq<seq<Entry<V>>>, m: map<Bytes, V>, hash: Bytes -> nat, b: nat, j: nat, i: nat,
      k: nat)
    requires AllRepresent(chains, m, hash) && b < |chains| && j < |chains[b]| && i < |chains| && k < |chains[i]|
    requires (i != b || k != j)
    ensures chains[i][k] != chains[b][j]
  {
    assert Represents(chains[b], m, hash, |chains|, b);
    assert Represents(chains[i], m, hash, |chains|, i);
  }

  ghost predicate LinkedBy<V>(chains: seq<seq<Entry<V>>>, links: map<Entry<V>, Entry?<V>>) {
    forall b, j :: 0 <= b < |chains| && 0 <= j < |chains[b]| ==> LinkAt(chains, links, b, j)
  }

  ghost predicate LinkAt<V>(chains: seq<seq<Entry<V>>>, links: map<Entry<V>, Entry?<V>>, b: nat, j: nat)
    requires b < |chains| && j < |chains[b]|
  {
    chains[b][j] in links && links[chains[b][j]] == Following(chains[b], j)
  }

  /** Taking out the j-th entry of a bucket: only the entry in front of it has a new successor. */
  lemma StillLinked<V>(chains: seq<seq<Entry<V>>>, m: map<Bytes, V>, hash: Bytes -> nat, links: map<Entry<V>,
      Entry?<V>>, b: nat, j: nat)
    requires AllRepresent(chains, m, hash) && LinkedBy(chains, links) && b < |chains| && j < |chains[b]|
    ensures LinkedBy(chains[b := Without(chains[b], j)],
      if j == 0 then links else links[chains[b][j - 1] := Following(chains[b], j)])
  {
    hide AllRepresent, Without, Following;
    var chains' := chains[b := Without(chains[b], j)];
    var links' := if j == 0 then links else links[chains[b][j - 1] := Following(chains[b], j)];
    WithoutFirst(chains[b], j);
    forall i, k | 0 <= i < |chains'| && 0 <= k < |chains'[i]| ensures LinkAt(chains', links', i, k) {
      if i == b { WithoutAt(chains[b], j, k); }
      if !(i == b && k == j - 1) {
        var was := if i == b && k >= j then k + 1 else k;
        assert LinkAt(chains, links, i, was) && chains'[i][k] == chains[i][was];
        if j > 0 { EntriesDiffer(chains, m, hash, b, j - 1, i, was); }
      }
    }
  }

  // ----- the table -----

  class Table<V(0)> {
    const hash: Bytes -> nat
    const buckets: array<Entry?<V>>
    var size: int
    /** The map that the table stands for, and the entries of each bucket. */
    ghost var model: map<Bytes, V>
    ghost var chains: seq<seq<Entry<V>>>
    ghost var nodes: set<Entry<V>>

    ghost predicate NodeOk(b: nat, j: nat)
      requires b < |chains| && j < |chains[b]|
      reads this, nodes
    {
      chains[b][j] in nodes && chains[b][j].next == Following(chains[b], j)
    }

    ghost predicate Valid()
      reads this, buckets, nodes
    {
      && buckets.Length == |chains| && size == |model| && AllRepresent(chains, model, hash)
      && (forall b :: 0 <= b < |chains| ==> buckets[b] == First(chains[b]))
      && (forall b, j :: 0 <= b < |chains| && 0 <= j < |chains[b]| ==> NodeOk(b, j))
    }

    constructor (nbucket: nat, hash: Bytes -> nat)
      requires nbucket > 0
      ensures Valid() && model == map[] && this.hash == hash && buckets.Length == nbucket && fresh(buckets)
      ensures nodes == {}
    {
      this.hash := hash;
      buckets := new Entry?<V>[nbucket](_ => null);
      size, model, nodes := 0, map[], {};
      chains := seq(nbucket, _ => []);
    }

    /** ht->size counts the entries. */
    lemma SizeIsCount()
      requires Valid()
      ensures size == |model|
    {
    }

    /** The walk along a bucket that add, get and del share: the entry with the key, and the one
        in front of it. */
    method Find(key: Bytes) returns (b: nat, current: Entry?<V>, prev: Entry?<V>, ghost j: nat)
      requires Valid()
      ensures b < |chains| && b == hash(key) % |chains|
      ensures current == null <==> key !in model
      ensures current != null ==>
        j < |chains[b]| && current == chains[b][j] && current.key == key && current.value == model[key]
      ensures current != null ==> prev == if j == 0 then null else chains[b][j - 1]
    {
      b := hash(key) % buckets.Length;
      ghost var c := chains[b];
      assert Represents(c, model, hash, |chains|, b);
      current, prev, j := buckets[b], null, 0;
      while current != null && current.key != key
        invariant j <= |c| && current == (if j < |c| then c[j] else null) && prev == (if j == 0 then null else c[j - 1])
        invariant forall i :: 0 <= i < j ==> c[i].key != key
        decreases |c| - j
      {
        assert NodeOk(b, j);
        prev, current, j := current, current.next, j + 1;
      }
      assert current == null && key in model ==> HasKey(c, key);
    }

    /** hashtable_get. */
    method Get(key: Bytes) returns (found: bool, value: V)
      requires Valid()
      ensures found <==> key in model
      ensures found ==> value == model[key]
    {
      hide AllRepresent;
      var b, current, prev, j := Find(key);
      if current == null {
        value := *;
        return false, value;
      }
      return true, current.value;
    }

    /** hashtable_add: never overwrites; gives the value that is already there, if there is one.
        A new entry is inserted exactly if memory is granted for it. */
    method Add(key: Bytes, value: V, granted: bool) returns (present: bool, already: V)
      requires Valid()
      modifies this`size, this`model, this`chains, this`nodes, buckets
      ensures Valid() && fresh(nodes - old(nodes)) && old(nodes) <= nodes
      ensures present <==> key in old(model)
      ensures present ==> already == old(model)[key]
      ensures model == if key !in old(model) && granted then old(model)[key := value] else old(model)
    {
      hide AllRepresent;
      var b, current, prev, j := Find(key);
      already := *;
      if current != null { return true, current.value; }
      if !granted { return false, already; }
      var e := new Entry(key, value, buckets[b]);
      Link(b, e);
      return false, already;
    }

    /** Put a new entry in front of bucket b. */
    method Link(b: nat, e: Entry<V>)
      requires Valid() && b < |chains| && b == hash(e.key) % |chains| && e.key !in model && e.next == buckets[b]
      requires e !in nodes
      modifies this`size, this`model, this`chains, this`nodes, buckets
      ensures Valid() && nodes == old(nodes) + {e} && model == old(model)[e.key := e.value]
    {
      hide AllRepresent;
      AddToAll(chains, b, e, model, hash);
      buckets[b] := e;
      size := size + 1;
      model, nodes, chains := model[e.key := e.value], nodes + {e}, chains[b := [e] + chains[b]];
      forall i, k | 0 <= i < |chains| && 0 <= k < |chains[i]| ensures NodeOk(i, k) {
        if i == b && k > 0 {
          assert old(NodeOk(b, k - 1));
        } else if i != b {
          assert old(NodeOk(i, k));
        }
      }
    }

    /** Take the j-th entry out of bucket b. */
    method Unlink(b: nat, current: Entry<V>, prev: Entry?<V>, ghost j: nat)
      requires Valid() && b < |chains| && j < |chains[b]| && current == chains[b][j]
      requires prev == if j == 0 then null else chains[b][j - 1]
      modifies this`size, this`model, this`chains, buckets, nodes
      ensures Valid() && chains == old(chains)[b := Without(old(chains)[b], j)] && model == old(model) - {current.key}
      ensures size == old(size) - 1
    {
      hide AllRepresent, Without, Following, First;
      ghost var links := Links();
      LinksHold();
      RemoveFromAll(chains, b, j, model, hash);
      WithoutFirst(chains[b], j);
      assert NodeOk(b, j);
      if prev == null {
        buckets[b] := current.next;
      } else {
        assert NodeOk(b, j - 1);
        prev.next := current.next;
      }
      size := size - 1;
      model := model - {current.key};
      chains := chains[b := Without(chains[b], j)];
      assert Links() == if prev == null then links else links[prev := Following(old(chains)[b], j)];
      StillLinked(old(chains), old(model), hash, links, b, j);
      NodesHold();
    }

    lemma LinksHold()
      requires Valid()
      ensures LinkedBy(chains, Links())
    {
      hide AllRepresent, Following;
      forall b, j | 0 <= b < |chains| && 0 <= j < |chains[b]| ensures LinkAt(chains, Links(), b, j)
        { assert NodeOk(b, j); }
    }

    lemma NodesHold()
      requires LinkedBy(chains, Links())
      ensures forall b, j :: 0 <= b < |chains| && 0 <= j < |chains[b]| ==> NodeOk(b, j)
    {
      hide Following;
      forall b, j | 0 <= b < |chains| && 0 <= j < |chains[b]| ensures NodeOk(b, j)
        { assert LinkAt(chains, Links(), b, j); }
    }

    /** What every entry points to. */
    ghost function Links(): map<Entry<V>, Entry?<V>>
      reads this, nodes
    {
      map n | n in nodes :: n.next
    }

    /** hashtable_del. */
    method Del(key: Bytes) returns (removed: bool)
      requires Valid()
      modifies this`size, this`model, this`chains, buckets, nodes
      ensures Valid() && removed == (key in old(model)) && model == old(model) - {key}
    {
      hide AllRepresent;
      var b, current, prev, j := Find(key);
      if current == null { return false; }
      Unlink(b, current, prev, j);
      return true;
    }

    /** hashtable_sweep: exactly the entries with an expired value go, and are counted. */
    method Sweep(expired: V -> bool) returns (removed: nat)
      requires Valid()
      modifies this`size, this`model, this`chains, buckets, nodes
      ensures Valid() && model == (map key | key in old(model) && !expired(old(model)[key]) :: old(model)[key])
      ensures removed == |old(model)| - |model|
    {
      hide AllRepresent;
      removed := 0;
      for i := 0 to buckets.Length
        invariant Valid() && OnlyExpired(old(model), model, expired) && removed == |old(model)| - |model|
        invariant forall b :: 0 <= b < i ==> Fresh(chains[b], |chains[b]|, expired)
      {
        var n := SweepBucket(i, expired, old(model));
        removed := removed + n;
      }
      NothingExpired(chains, model, hash, expired);
    }

    /** One bucket of a sweep of the map m0. */
    method SweepBucket(i: nat, expired: V -> bool, ghost m0: map<Bytes, V>) returns (removed: nat)
      requires Valid() && i < |chains| && OnlyExpired(m0, model, expired)
      modifies this`size, this`model, this`chains, buckets, nodes
      ensures Valid() && OnlyExpired(m0, model, expired) && removed == |old(model)| - |model|
      ensures i < |chains| == |old(chains)| && Fresh(chains[i], |chains[i]|, expired)
      ensures forall b :: 0 <= b < |chains| && b != i ==> chains[b] == old(chains)[b]
    {
      hide Valid, Without, OnlyExpired, Fresh;
      FirstEntry(i);
      NoneFresh(chains[i], expired);
      removed := 0;
      var prev: Entry?<V>, current := null, buckets[i];
      ghost var j := 0;
      while current != null
        invariant Valid() && i < |chains| == |old(chains)| && OnlyExpired(m0, model, expired)
        invariant removed == |old(model)| - |model|
        invariant j <= |chains[i]| && current == (if j < |chains[i]| then chains[i][j] else null)
        invariant prev == (if j == 0 then null else chains[i][j - 1]) && Fresh(chains[i], j, expired)
        invariant forall b :: 0 <= b < |chains| && b != i ==> chains[b] == old(chains)[b]
        decreases |chains[i]| - j
      {
        if expired(current.value) {
          current := Drop(i, current, prev, j, expired, m0);
          removed := removed + 1;
        } else {
          NextEntry(i, j);
          OneMoreFresh(chains[i], j, expired);
          prev, current, j := current, current.next, j + 1;
        }
      }
    }

    /** The expired entry `current` goes; the one behind it is next. */
    method Drop(i: nat, current: Entry<V>, prev: Entry?<V>, ghost j: nat, ghost expired: V -> bool,
        ghost m0: map<Bytes, V>)
        returns (next: Entry?<V>)
      requires Valid() && i < |chains| && j < |chains[i]| && current == chains[i][j]
      requires prev == if j == 0 then null else chains[i][j - 1]
      requires OnlyExpired(m0, model, expired) && expired(current.value) && Fresh(chains[i], j, expired)
      modifies this`size, this`model, this`chains, buckets, nodes
      ensures Valid() && OnlyExpired(m0, model, expired) && |model| == |old(model)| - 1
      ensures i < |chains| == |old(chains)| && |chains[i]| == |old(chains)[i]| - 1
      ensures j <= |chains[i]| && next == (if j < |chains[i]| then chains[i][j] else null)
      ensures prev == (if j == 0 then null else chains[i][j - 1]) && Fresh(chains[i], j, expired)
      ensures forall b :: 0 <= b < |chains| && b != i ==> chains[b] == old(chains)[b]
    {
      hide Valid, Without, OnlyExpired, Fresh;
      NextEntry(i, j);
      next := current.next;
      FreshWithout(chains[i], j, expired);
      RemovedExpired(m0, model, current.key, expired);
      Unlink(i, current, prev, j);
    }

    lemma FirstEntry(i: nat)
      requires Valid() && i < |chains|
      ensures |chains| == buckets.Length && buckets[i] == if chains[i] == [] then null else chains[i][0]
    {
      hide AllRepresent;
    }

    lemma NextEntry(i: nat, j: nat)
      requires Valid() && i < |chains| && j < |chains[i]|
      ensures var e := chains[i][j];
        e.next == (if j + 1 < |chains[i]| then chains[i][j + 1] else null) && e.key in model && model[e.key] == e.value
    {
      hide AllRepresent;
      assert NodeOk(i, j);
      EntryValue(chains, model, hash, i, j);
    }

    /** hashtable_values: the values in an array that doubles when it is full, of which memory
        grants the first `grants` sizes.  Every entry contributes its value at most once, and as
        many entries as there is room for do. */
    method Values(grants: nat) returns (values: array?<V>, cnt: nat, ghost order: seq<Bytes>)
      requires Valid()
      ensures values != null ==> fresh(values) && cnt <= values.Length
      ensures values == null ==> cnt == 0
      ensures Listed(values, cnt, order, model)
      ensures cnt == if |model| <= Room(grants) then |model| else Room(grants)
      ensures |model| <= Room(grants) ==> forall key :: key in model ==> key in order
    {
      hide AllRepresent, Visited, Listed;
      values, cnt, order := null, 0, [];
      var used := 0;
      NothingVisited(chains, hash);
      assert Listed(values, cnt, order, model) by { NothingListed(model); }
      for i := 0 to buckets.Length
        invariant Holding(values, cnt, used, grants) && (values != null ==> fresh(values))
        invariant Listed(values, cnt, order, model) && Visited(chains, order, i, 0, hash)
      {
        var e := buckets[i];
        ghost var j := 0;
        while e != null
          invariant Holding(values, cnt, used, grants) && (values != null ==> fresh(values))
          invariant j <= |chains[i]| && e == (if j < |chains[i]| then chains[i][j] else null)
          invariant Listed(values, cnt, order, model) && Visited(chains, order, i, j, hash)
          decreases |chains[i]| - j
        {
          assert NodeOk(i, j);
          VisitNext(chains, model, hash, order, i, j);
          if values == null || cnt == values.Length {
            if used == grants {
              OneMore(values, cnt, order, model, e.key);
              return;
            }
            values := Grow(values, cnt, order, model);
            used := used + 1;
          }
          ListedKeys(values, cnt, order, model);
          values[cnt] := e.value;
          ListOneMore(values, cnt, order, model, e.key);
          cnt, order, e, j := cnt + 1, order + [e.key], e.next, j + 1;
        }
        BucketVisited(chains, model, order, i, hash);
      }
      ListedKeys(values, cnt, order, model);
      AllVisited(chains, model, hash, order);
      RoomGrows(used, grants);
    }

    /** An array of one element, or one of twice the size with the same elements. */
    method Grow(values: array?<V>, cnt: nat, ghost order: seq<Bytes>, ghost m: map<Bytes, V>) returns (more: array<V>)
      requires values == null ==> cnt == 0
      requires values != null ==> cnt == values.Length > 0
      requires Listed(values, cnt, order, m)
      ensures fresh(more) && more.Length == if values == null then 1 else 2 * values.Length
      ensures Listed(more, cnt, order, m)
    {
      if values == null {
        more := new V[1];
      } else {
        more := new V[2 * values.Length];
        for i := 0 to cnt
          invariant more[..i] == values[..i]
        {
          more[i] := values[i];
        }
        forall i | 0 <= i < cnt ensures more[i] == values[i] { assert more[..cnt][i] == values[..cnt][i]; }
      }
    }
  }

  /** The size of the array after n doublings have been granted, the first for one element. */
  function Room(n: nat): nat { if n == 0 then 0 else if n == 1 then 1 else 2 * Room(n - 1) }

  lemma {:induction false} RoomGrows(m: nat, n: nat)
    requires m <= n
    ensures Room(m) <= Room(n)
    decreases n
  {
    if m < n { RoomGrows(m, n - 1); }
  }

  /** The array has the size that the granted requests gave it, and holds cnt values. */
  ghost predicate Holding<V>(values: array?<V>, cnt: nat, used: nat, grants: nat) {
    && used <= grants && (values == null <==> used == 0)
    && (values == null ==> cnt == 0) && (values != null ==> cnt <= values.Length == Room(used) && 0 < values.Length)
  }

  // ----- sweeping -----

  /** Nothing but expired values has gone. */
  ghost predicate OnlyExpired<V>(m0: map<Bytes, V>, m: map<Bytes, V>, expired: V -> bool) {
    && (forall key :: key in m ==> key in m0 && m0[key] == m[key])
    && (forall key :: key in m0 && key !in m ==> expired(m0[key]))
  }

  ghost predicate Fresh<V>(c: seq<Entry<V>>, n: nat, expired: V -> bool) {
    n <= |c| && forall j :: 0 <= j < n ==> !expired(c[j].value)
  }

  lemma NoneFresh<V>(c: seq<Entry<V>>, expired: V -> bool)
    ensures Fresh(c, 0, expired)
  {
  }

  lemma OneMoreFresh<V>(c: seq<Entry<V>>, j: nat, expired: V -> bool)
    requires j < |c| && Fresh(c, j, expired) && !expired(c[j].value)
    ensures Fresh(c, j + 1, expired)
  {
  }

  lemma EntryValue<V>(chains: seq<seq<Entry<V>>>, m: map<Bytes, V>, hash: Bytes -> nat, b: nat, j: nat)
    requires AllRepresent(chains, m, hash) && b < |chains| && j < |chains[b]|
    ensures chains[b][j].key in m && m[chains[b][j].key] == chains[b][j].value && hash(chains[b][j].key) % |chains| == b
  {
    assert Represents(chains[b], m, hash, |chains|, b);
  }

  lemma RemovedExpired<V>(m0: map<Bytes, V>, m: map<Bytes, V>, key: Bytes, expired: V -> bool)
    requires OnlyExpired(m0, m, expired) && key in m && expired(m[key])
    ensures OnlyExpired(m0, m - {key}, expired)
  {
  }

  lemma FreshWithout<V>(c: seq<Entry<V>>, j: nat, expired: V -> bool)
    requires j < |c| && Fresh(c, j, expired)
    ensures Fresh(Without(c, j), j, expired)
    ensures |Without(c, j)| == |c| - 1 && (j < |c| - 1 ==> Without(c, j)[j] == c[j + 1])
    ensures j > 0 ==> Without(c, j)[j - 1] == c[j - 1]
  {
  }

  lemma NothingExpired<V>(chains: seq<seq<Entry<V>>>, m: map<Bytes, V>, hash: Bytes -> nat, expired: V -> bool)
    requires AllRepresent(chains, m, hash) && forall b :: 0 <= b < |chains| ==> Fresh(chains[b], |chains[b]|, expired)
    ensures forall key :: key in m ==> !expired(m[key])
  {
    forall key | key in m ensures !expired(m[key]) {
      var b := hash(key) % |chains|;
      assert Represents(chains[b], m, hash, |chains|, b);
      assert HasKey(chains[b], key);
      assert Fresh(chains[b], |chains[b]|, expired);
    }
  }

  // ----- listing -----

  /** The first cnt values are those of the keys in order, none of which occurs twice. */
  ghost predicate Listed<V>(values: array?<V>, cnt: nat, order: seq<Bytes>, m: map<Bytes, V>)
    reads values
  {
    && |order| == cnt && (values == null ==> cnt == 0) && (values != null ==> cnt <= values.Length)
    && (forall i, j :: 0 <= i < j < cnt ==> order[i] != order[j])
    && (forall i :: 0 <= i < cnt ==> order[i] in m && values[i] == m[order[i]])
  }

  lemma NothingListed<V>(m: map<Bytes, V>)
    ensures Listed(null, 0, [], m)
  {
  }

  lemma ListOneMore<V>(values: array<V>, cnt: nat, order: seq<Bytes>, m: map<Bytes, V>, key: Bytes)
    requires |order| == cnt < values.Length && key in m && values[cnt] == m[key] && key !in order
    requires forall i, j :: 0 <= i < j < cnt ==> order[i] != order[j]
    requires forall i :: 0 <= i < cnt ==> order[i] in m && values[i] == m[order[i]]
    ensures Listed(values, cnt + 1, order + [key], m)
  {
  }

  lemma ListedKeys<V>(values: array?<V>, cnt: nat, order: seq<Bytes>, m: map<Bytes, V>)
    requires Listed(values, cnt, order, m)
    ensures |order| == cnt && (forall i, j :: 0 <= i < j < cnt ==> order[i] != order[j])
    ensures values == null ==> cnt == 0
    ensures values != null ==>
      cnt <= values.Length && forall i :: 0 <= i < cnt ==> order[i] in m && values[i] == m[order[i]]
    ensures forall i :: 0 <= i < cnt ==> order[i] in m
  {
  }

  /** When another key is to be listed, not all have been. */
  lemma OneMore<V>(values: array?<V>, cnt: nat, order: seq<Bytes>, m: map<Bytes, V>, key: Bytes)
    requires Listed(values, cnt, order, m) && key in m && key !in order
    ensures cnt < |m|
  {
    var keys := set k | k in order;
    Counted(order, keys);
    SubsetSize(keys, m.Keys - {key});
    assert |m.Keys| == |m|;
  }

  /** order holds the keys of the buckets below i and of the first j entries of bucket i. */
  ghost predicate Visited<V>(chains: seq<seq<Entry<V>>>, order: seq<Bytes>, i: nat, j: nat, hash: Bytes -> nat) {
    && i <= |chains| && (j > 0 ==> i < |chains| && j <= |chains[i]|)
    && (forall b, k :: 0 <= b < i && 0 <= k < |chains[b]| ==> chains[b][k].key in order)
    && (forall k :: 0 <= k < j ==> chains[i][k].key in order)
    && (forall key ::
      key in order ==> |chains| > 0 && (hash(key) % |chains| < i || (j > 0 && HasKey(chains[i][..j], key))))
  }

  lemma NothingVisited<V>(chains: seq<seq<Entry<V>>>, hash: Bytes -> nat)
    ensures Visited(chains, [], 0, 0, hash)
  {
  }

  lemma VisitNext<V>(chains: seq<seq<Entry<V>>>, m: map<Bytes, V>, hash: Bytes -> nat, order: seq<Bytes>, i: nat,
      j: nat)
    requires AllRepresent(chains, m, hash) && Visited(chains, order, i, j, hash) && i < |chains| && j < |chains[i]|
    ensures var e := chains[i][j];
      e.key !in order && e.key in m && m[e.key] == e.value && Visited(chains, order + [e.key], i, j + 1, hash)
  {
    var e, order' := chains[i][j], order + [chains[i][j].key];
    EntryValue(chains, m, hash, i, j);
    assert Represents(chains[i], m, hash, |chains|, i);
    forall key | key in order' ensures hash(key) % |chains| < i || HasKey(chains[i][..j + 1], key) {
      if key == e.key {
        assert chains[i][..j + 1][j].key == key;
      } else if hash(key) % |chains| >= i {
        assert HasKey(chains[i][..j], key);
        var k :| 0 <= k < j && chains[i][..j][k].key == key;
        assert chains[i][..j + 1][k].key == key;
      }
    }
  }

  lemma BucketVisited<V>(chains: seq<seq<Entry<V>>>, m: map<Bytes, V>, order: seq<Bytes>, i: nat, hash: Bytes -> nat)
    requires AllRepresent(chains, m, hash) && i < |chains| && Visited(chains, order, i, |chains[i]|, hash)
    ensures Visited(chains, order, i + 1, 0, hash)
  {
    assert Represents(chains[i], m, hash, |chains|, i);
    forall key | key in order ensures hash(key) % |chains| < i + 1 {
      if hash(key) % |chains| >= i {
        assert HasKey(chains[i][..|chains[i]|], key);
      }
    }
  }

  lemma AllVisited<V>(chains: seq<seq<Entry<V>>>, m: map<Bytes, V>, hash: Bytes -> nat, order: seq<Bytes>)
    requires AllRepresent(chains, m, hash) && Visited(chains, order, |chains|, 0, hash)
    requires (forall i, j :: 0 <= i < j < |order| ==> order[i] != order[j])
    requires forall i :: 0 <= i < |order| ==> order[i] in m
    ensures forall key :: key in m ==> key in order
    ensures |order| == |m|
  {
    forall key | key in m ensures key in order {
      var b := hash(key) % |chains|;
      assert Represents(chains[b], m, hash, |chains|, b);
      assert HasKey(chains[b], key);
    }
    Counted(order, m.Keys);
    assert |m.Keys| == |m|;
  }

  /** A list without duplicates is as long as its set of elements. */
  lemma {:induction false} Counted(order: seq<Bytes>, keys: set<Bytes>)
    requires forall i, j :: 0 <= i < j < |order| ==> order[i] != order[j]
    requires forall key :: key in order <==> key in keys
    ensures |order| == |keys|
  {
    if order == [] {
      assert keys == {};
    } else {
      var rest := order[1..];
      forall key ensures key in rest <==> key in keys - {order[0]} {
        if key in keys - {order[0]} {
          var i :| 0 <= i < |order| && order[i] == key;
          assert rest[i - 1] == key;
        }
      }
      assert order[0] in keys;
      Counted(rest, keys - {order[0]});
    }
  }
}
