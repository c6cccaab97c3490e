/**
 The in-memory registry: leases, a lazily cleaned deadline heap fenced by generations, and a
 cached sorted listing per service. Each public call is one step; contexts are not cancelled.
 */
module Registry {
  import opened Status
  import opened Leases
  import opened ExpiryHeap
  import Order

  datatype Stored = Stored(lease: Lease, generation: nat)

  datatype Deadline = Never | At(time: int)

  /** A published listing of one service. */
  datatype Published = Published(version: nat, instances: seq<Instance>, nextExpiresAt: Deadline)

  datatype Error = Ok | InvalidInstance | InstanceNotFound | EpochMismatch

  // ---------------------------------------------------------------- listings

  function Ids(instances: seq<Instance>): (ids: seq<Name>)
    ensures |ids| == |instances|
  {
    seq(|instances|, i requires 0 <= i < |instances| => instances[i].key.id)
  }

  predicate Listed(inst: Instance, m: Table, service: Name, t: int) {
    inst.key in m && inst.key.service == service && m[inst.key].instance == inst && !Lapsed(m[inst.key], t)
  }

  /** The plain scan: exactly the unexpired instances of the service, in ID order. */
  ghost predicate Lists(instances: seq<Instance>, m: Table, service: Name, t: int) {
    && Order.StrictlySorted(Ids(instances))
    && (forall i :: 0 <= i < |instances| ==> Listed(instances[i], m, service, t))
    && (forall k :: k in m && k.service == service && !Lapsed(m[k], t) ==> m[k].instance in instances)
  }

  /** In byte order of their identifiers. */
  ghost predicate InIdOrder(instances: seq<Instance>) {
    forall i, j :: 0 <= i < j < |instances| ==> Order.Before(instances[i].key.id, instances[j].key.id)
  }

  /** Every instance of the service whose deadline is still to come, and no other. */
  ghost predicate ExactlyUnexpired(instances: seq<Instance>, m: Table, service: Name, t: int) {
    && (forall x :: x in instances ==> x.key in m && x.key.service == service && m[x.key].instance == x)
    && (forall k :: k in m && k.service == service ==> (m[k].instance in instances <==> t < m[k].expiresAt))
  }

  /** What a listing is, in terms of bytes and deadlines. */
  lemma ListingMeans(instances: seq<Instance>, m: Table, service: Name, t: int)
    requires WellKeyed(m) && Lists(instances, m, service, t)
    ensures InIdOrder(instances) && ExactlyUnexpired(instances, m, service, t)
  {
    forall i, j | 0 <= i < j < |instances|
      ensures Order.Before(instances[i].key.id, instances[j].key.id)
    {
      assert Order.Less(Ids(instances)[i], Ids(instances)[j]);
      Order.LessIsBytewise(instances[i].key.id, instances[j].key.id);
    }
  }

  predicate WellKeyed(m: Table) {
    forall k :: k in m ==> m[k].instance.key == k
  }

  /** The listing is a function of the table: the order in which the map is iterated cannot show. */
  lemma ListingIsUnique(a: seq<Instance>, b: seq<Instance>, m: Table, service: Name, t: int)
    requires WellKeyed(m) && Lists(a, m, service, t) && Lists(b, m, service, t)
    ensures a == b
  {
    forall id ensures id in Ids(a) <==> id in Ids(b) {
      SameIds(a, b, m, service, t, id);
      SameIds(b, a, m, service, t, id);
    }
    Order.SortedIsUnique(Ids(a), Ids(b));
    assert forall i :: 0 <= i < |a| ==> Ids(a)[i] == a[i].key.id && Ids(b)[i] == b[i].key.id;
    assert forall i :: 0 <= i < |a| ==> a[i].key == b[i].key;
  }

  lemma SameIds(a: seq<Instance>, b: seq<Instance>, m: Table, service: Name, t: int, id: Name)
    requires Lists(a, m, service, t) && Lists(b, m, service, t)
    ensures id in Ids(a) ==> id in Ids(b)
  {
    if id in Ids(a) {
      var i :| 0 <= i < |a| && Ids(a)[i] == id;
      assert m[a[i].key].instance in b;
      var j :| 0 <= j < |b| && b[j] == a[i];
      assert Ids(b)[j] == id;
    }
  }

  /** The earliest deadline of what is listed. */
  ghost predicate IsNext(next: Deadline, instances: seq<Instance>, m: Table)
    requires forall i :: 0 <= i < |instances| ==> instances[i].key in m
  {
    match next
    case Never => instances == []
    case At(t) =>
      && (forall i :: 0 <= i < |instances| ==> t <= m[instances[i].key].expiresAt)
      && (exists i :: 0 <= i < |instances| && m[instances[i].key].expiresAt == t)
  }

  ghost predicate Fresh(p: Published, m: Table, service: Name, t: int) {
    Lists(p.instances, m, service, t) && IsNext(p.nextExpiresAt, p.instances, m)
  }

  predicate NeedsExpiry(p: Published, now: int) {
    p.nextExpiresAt.At? && p.nextExpiresAt.time <= now
  }

  /** A cached listing stays right until its earliest deadline, and only until then. */
  lemma CacheIsCurrent(p: Published, m: Table, service: Name, t: int, now: int)
    requires WellKeyed(m) && Fresh(p, m, service, t) && t <= now
    ensures Lists(p.instances, m, service, now) <==> !NeedsExpiry(p, now)
  {
    if NeedsExpiry(p, now) {
      var i :| 0 <= i < |p.instances| && m[p.instances[i].key].expiresAt == p.nextExpiresAt.time;
      assert Lapsed(m[p.instances[i].key], now);
    }
  }

  /** Listings of one service look only at that service's leases. */
  lemma FreshLocal(p: Published, m: Table, m': Table, service: Name, t: int)
    requires Fresh(p, m, service, t)
    requires forall k: Key :: k.service == service ==> SameAt(m, m', k)
    ensures Fresh(p, m', service, t)
  {
    forall k | k in m' && k.service == service && !Lapsed(m'[k], t) ensures m'[k].instance in p.instances {
      assert SameAt(m, m', k);
    }
    forall i | 0 <= i < |p.instances|
      ensures SameAt(m, m', p.instances[i].key)
    {
      assert Listed(p.instances[i], m, service, t);
    }
  }

  function Insert(xs: seq<Instance>, x: Instance): seq<Instance> {
    if xs == [] || Order.Less(x.key.id, xs[0].key.id) then [x] + xs else [xs[0]] + Insert(xs[1..], x)
  }

  lemma {:induction false} InsertMembers(xs: seq<Instance>, x: Instance)
    ensures forall y :: y in Insert(xs, x) <==> y == x || y in xs
  {
    if xs != [] && !Order.Less(x.key.id, xs[0].key.id) {
      InsertMembers(xs[1..], x);
      assert xs == [xs[0]] + xs[1..];
    }
  }

  lemma PrependSorts(x: Instance, xs: seq<Instance>)
    requires Order.StrictlySorted(Ids(xs)) && (xs != [] ==> Order.Less(x.key.id, xs[0].key.id))
    ensures Order.StrictlySorted(Ids([x] + xs))
  {
    var ids := Ids([x] + xs);
    assert ids == [x.key.id] + Ids(xs);
    forall i, j | 0 <= i < j < |ids| ensures Order.Less(ids[i], ids[j]) {
      if i == 0 && j > 1 {
        Order.LessTransitive(ids[0], ids[1], ids[j]);
      }
    }
  }

  lemma {:induction false} InsertSorts(xs: seq<Instance>, x: Instance)
    requires Order.StrictlySorted(Ids(xs)) && forall y :: y in xs ==> y.key.id != x.key.id
    ensures Order.StrictlySorted(Ids(Insert(xs, x)))
  {
    if xs == [] || Order.Less(x.key.id, xs[0].key.id) {
      PrependSorts(x, xs);
    } else {
      assert Ids(xs[1..]) == Ids(xs)[1..];
      InsertSorts(xs[1..], x);
      assert xs[0] in xs;
      Order.LessTotal(x.key.id, xs[0].key.id);
      assert |xs| > 1 ==> Order.Less(Ids(xs)[0], Ids(xs)[1]);
      PrependSorts(xs[0], Insert(xs[1..], x));
    }
  }

  // ---------------------------------------------------------------- the registry

  function EntryOf(k: Key, stored: Stored): Entry {
    Entry(k, stored.lease.expiresAt, stored.generation)
  }

  function LeasesOf(records: map<Key, Stored>): (m: Table)
    ensures m.Keys == records.Keys
  {
    map k | k in records :: records[k].lease
  }

  /** Every lease has its own heap entry, and an entry of a lease's generation is that lease's own. */
  ghost predicate Indexed(records: map<Key, Stored>, expiries: seq<Entry>, generation: nat) {
    && IsHeap(expiries)
    && WellKeyed(LeasesOf(records))
    && (forall k :: k in records ==> EntryOf(k, records[k]) in expiries)
    && (forall e :: e in expiries ==> e.generation <= generation)
    && (forall e, k :: e in expiries && k in records && e.generation == records[k].generation ==> e == EntryOf(k, records[k]))
  }

  /** Every service with leases has a listing, and each listing was right when it was built. */
  ghost predicate Cached(m: Table, published: map<Name, Published>, builtAt: map<Name, int>) {
    && builtAt.Keys == published.Keys
    && (forall k :: k in m ==> k.service in published)
    && (forall s :: s in published ==> Fresh(published[s], m, s, builtAt[s]))
  }

  ghost predicate SameElsewhere(a: Table, b: Table, service: Name) {
    forall k :: (k in a || k in b) && k.service != service ==> SameAt(a, b, k)
  }

  ghost predicate RepublishedOnly(before: map<Name, Published>, after: map<Name, Published>, service: Name) {
    && after.Keys == before.Keys + {service}
    && (forall s :: s in before && s != service ==> after[s] == before[s])
    && after[service].version == 1 + if service in before then before[service].version else 0
  }

  /** Each of these services has a listing and gets the next version; the others keep theirs. */
  ghost predicate RepublishedAll(before: map<Name, Published>, after: map<Name, Published>, services: set<Name>) {
    && after.Keys == before.Keys && services <= before.Keys
    && (forall s :: s in before && s !in services ==> after[s] == before[s])
    && (forall s :: s in services ==> after[s].version == before[s].version + 1)
  }

  lemma RepublishedOne(before: map<Name, Published>, between: map<Name, Published>, after: map<Name, Published>,
                       services: set<Name>, service: Name)
    requires RepublishedAll(before, between, services) && RepublishedOnly(between, after, service)
    requires service in before && service !in services
    ensures RepublishedAll(before, after, services + {service})
  {
  }

  lemma NoneRepublished(before: map<Name, Published>, services: set<Name>)
    requires services == {}
    ensures RepublishedAll(before, before, services)
  {
  }

  /** The services that a sweep of the whole table touches. */
  function LapsedServices(m: Table, now: int): set<Name> {
    set k | k in LapsedKeys(m, now) :: k.service
  }

  /** Rebuilding one service after only its leases changed restores every listing. */
  lemma RebuiltIsCached(m: Table, published: map<Name, Published>, builtAt: map<Name, int>,
                        m': Table, published': map<Name, Published>, service: Name, now: int)
    requires Cached(m, published, builtAt) && SameElsewhere(m, m', service)
    requires RepublishedOnly(published, published', service) && Fresh(published'[service], m', service, now)
    ensures Cached(m', published', builtAt[service := now])
  {
    forall s | s in published' && s != service ensures Fresh(published'[s], m', s, builtAt[s]) {
      forall k: Key | k.service == s ensures SameAt(m, m', k) {
      }
      FreshLocal(published[s], m, m', s, builtAt[s]);
    }
  }

  /** Why a heartbeat is refused, in the order the checks are made. */
  function HeartbeatError(m: Table, key: Key, fence: Fence, ttl: int): (err: Error)
    ensures err.InvalidInstance? <==> key.service == [] || key.id == [] || ttl <= 0
    ensures err.Ok? || err.EpochMismatch? ==> key in m
    ensures err.Ok? && !fence.Open? ==> fence.epoch == m[key].instance.epoch
    ensures err.Ok? && fence.Owner? ==> fence.token == m[key].instance.token
    ensures err.EpochMismatch? ==> !fence.Open? && (fence.epoch != m[key].instance.epoch
                                                    || (fence.Owner? && fence.token != m[key].instance.token))
    ensures err.InstanceNotFound? ==> key !in m
  {
    if key.service == [] || key.id == [] || ttl <= 0 then InvalidInstance
    else if key !in m then InstanceNotFound
    else if !Admits(fence, m[key].instance) then EpochMismatch
    else Ok
  }

  predicate Registrable(inst: Instance, ttl: int) {
    inst.key.id != [] && inst.key.service != [] && inst.address != [] && ttl > 0
  }

  /** What a registration stores: a known status, the clock and a new ownership fence. */
  function Stamped(inst: Instance, now: int, epoch: Name, token: Name): Instance {
    inst.(status := Normalized(inst.status), lastSeen := now, epoch := epoch, token := token)
  }

  function ServiceSwept(m: Table, service: Name, now: int): Table {
    m - set k | k in LapsedKeys(m, now) && k.service == service
  }

  class MemoryRegistry {
    var records: map<Key, Stored>
    var published: map<Name, Published>
    var expiries: seq<Entry>
    var generation: nat
    ghost var builtAt: map<Name, int>  // when each listing was last rebuilt

    ghost function Table(): Table
      reads this
    {
      LeasesOf(records)
    }

    ghost predicate Valid()
      reads this
    {
      Indexed(records, expiries, generation) && Cached(Table(), published, builtAt)
    }

    /** No listing was built later than `now`: the clock has not gone backwards. */
    ghost predicate NotBefore(now: int)
      reads this
    {
      forall s :: s in builtAt ==> builtAt[s] <= now
    }

    constructor ()
      ensures Valid() && Table() == map[] && forall t :: NotBefore(t)
    {
      records, published, expiries, generation, builtAt := map[], map[], [], 0, map[];
    }

    /** Collects the unexpired instances of a service, sorted, with their earliest deadline. */
    method Collect(service: Name, now: int) returns (instances: seq<Instance>, next: Deadline)
      requires WellKeyed(Table())
      ensures Lists(instances, Table(), service, now) && IsNext(next, instances, Table())
    {
      instances, next := [], Never;
      var todo := set k | k in records && k.service == service;
      ghost var m := Table();
      while todo != {}
        invariant todo <= records.Keys
        invariant Order.StrictlySorted(Ids(instances))
        invariant forall x :: x in instances ==> Listed(x, m, service, now) && x.key !in todo
        invariant forall k :: k in m && k.service == service && k !in todo && !Lapsed(m[k], now) ==> m[k].instance in instances
        invariant IsNext(next, instances, m)
        decreases todo
      {
        var k :| k in todo;
        todo := todo - {k};
        var lease := records[k].lease;
        if lease.expiresAt > now {
          InsertMembers(instances, lease.instance);
          InsertSorts(instances, lease.instance);
          instances := Insert(instances, lease.instance);
          if next.Never? || lease.expiresAt < next.time {
            next := At(lease.expiresAt);
          }
        }
      }
    }

    /** Publishes the collected listing under a new version. */
    method Rebuild(service: Name, now: int)
      requires WellKeyed(Table())
      modifies this`published, this`builtAt
      ensures builtAt == old(builtAt)[service := now]
      ensures RepublishedOnly(old(published), published, service)
      ensures Fresh(published[service], Table(), service, now)
    {
      var instances, next := Collect(service, now);
      var version := if service in published then published[service].version else 0;
      published := published[service := Published(version + 1, instances, next)];
      builtAt := builtAt[service := now];
    }

    /** Stores a lease under the next generation, in the table, the listing and the heap. */
    method Store(lease: Lease, now: int)
      requires Valid()
      modifies this
      ensures Valid()
      ensures Table() == old(Table())[lease.instance.key := lease]
      ensures builtAt == old(builtAt)[lease.instance.key.service := now]
      ensures RepublishedOnly(old(published), published, lease.instance.key.service)
      ensures generation == old(generation) + 1
      ensures multiset(expiries) == old(multiset(expiries)) + multiset{Entry(lease.instance.key, lease.expiresAt, generation)}
    {
      hide Fresh, Indexed, IsHeap, Cached, LeasesOf, SameElsewhere, RepublishedOnly, WellKeyed;
      var key := lease.instance.key;
      var stored := Stored(lease, generation + 1);
      StoredTable(records, expiries, generation, key, stored);
      generation := generation + 1;
      records := records[key := stored];
      Rebuild(key.service, now);
      RebuiltIsCached(old(Table()), old(published), old(builtAt), Table(), published, key.service, now);
      expiries := Push(expiries, EntryOf(key, stored));
      PushKeepsIndex(old(records), old(expiries), old(generation), key, stored, expiries);
    }

    method Register(inst: Instance, ttl: int, now: int, epoch: Name, token: Name) returns (err: Error)
      requires Valid()
      modifies this
      ensures Valid()
      ensures err == if inst.key.id == [] || inst.key.service == [] || inst.address == [] || ttl <= 0 then InvalidInstance
                     else Ok
      ensures Table() == if err.Ok? then Apply(old(Table()), Op.Register(Stamped(inst, now, epoch, token), ttl))
                         else old(Table())
      ensures builtAt == if err.Ok? then old(builtAt)[inst.key.service := now] else old(builtAt)
      ensures if err.Ok? then RepublishedOnly(old(published), published, inst.key.service) else published == old(published)
      ensures err.Ok? ==>
                && inst.key in Table() && AliveUntil(Table(), inst.key, now + ttl) && OnlyAt(old(Table()), Table(), inst.key)
                && Table()[inst.key].instance == inst.(status := if inst.status == Unspecified then Healthy else inst.status,
                                                       lastSeen := now, epoch := epoch, token := token)
    {
      hide Cached, Indexed, LeasesOf;
      if inst.key.id == [] || inst.key.service == [] || inst.address == [] || ttl <= 0 {
        return InvalidInstance;
      }
      Store(Lease(Stamped(inst, now, epoch, token), now + ttl), now);
      return Ok;
    }

    method ValidateHeartbeat(key: Key, fence: Fence, ttl: int) returns (err: Error)
      ensures err == HeartbeatError(Table(), key, fence, ttl)
    {
      if key.service == [] || key.id == [] || ttl <= 0 {
        return InvalidInstance;
      }
      if key !in records {
        return InstanceNotFound;
      }
      if !Admits(fence, records[key].lease.instance) {
        return EpochMismatch;
      }
      return Ok;
    }

    method HeartbeatAt(key: Key, fence: Fence, ttl: int, now: int) returns (err: Error)
      requires Valid()
      modifies this
      ensures Valid()
      ensures err == HeartbeatError(old(Table()), key, fence, ttl)
      ensures Table() == if err.Ok? then Apply(old(Table()), Heartbeat(key, ttl, now)) else old(Table())
      ensures builtAt == if err.Ok? then old(builtAt)[key.service := now] else old(builtAt)
      ensures if err.Ok? then RepublishedOnly(old(published), published, key.service) else published == old(published)
      ensures err.Ok? ==>
                && key in old(Table()) && key in Table()
                && AliveUntil(Table(), key, now + ttl) && OnlyAt(old(Table()), Table(), key)
                && Table()[key].instance == old(Table())[key].instance.(lastSeen := now)
    {
      hide Cached, IsHeap;
      err := ValidateHeartbeat(key, fence, ttl);
      if err.Ok? {
        OwnKey(records, expiries, generation, key);
        hide Indexed;
        Store(Renewed(records[key].lease, ttl, now), now);
      } else if !err.InvalidInstance? && key.service in published {
        generation := generation + 1;
      }
    }

    /** Replay of a logged deletion: removes the lease whatever its deadline. */
    method DeleteRecord(key: Key, now: int) returns (deleted: bool)
      requires Valid()
      modifies this
      ensures Valid() && deleted == (key in old(Table()))
      ensures Table() == old(Table()) - {key}
      ensures builtAt == if deleted then old(builtAt)[key.service := now] else old(builtAt)
      ensures if deleted then RepublishedOnly(old(published), published, key.service) else published == old(published)
    {
      hide Fresh, Indexed, IsHeap, Cached, LeasesOf;
      deleted := key in records;
      if deleted {
        Remove({key}, key.service, now);
      } else {
        assert Table() - {key} == Table();
      }
    }

    /** Removes leases of one service and republishes it; their heap entries stay behind, stale. */
    method Remove(gone: set<Key>, service: Name, now: int)
      requires Valid() && gone <= records.Keys && forall k :: k in gone ==> k.service == service
      modifies this`records, this`published, this`builtAt
      ensures Valid() && Table() == old(Table()) - gone && records == old(records) - gone
      ensures builtAt == old(builtAt)[service := now] && RepublishedOnly(old(published), published, service)
    {
      hide Fresh, Indexed, IsHeap, Cached, LeasesOf, SameElsewhere, RepublishedOnly, WellKeyed;
      RemovedTable(records, expiries, generation, gone, service);
      records := records - gone;
      Rebuild(service, now);
      RebuiltIsCached(old(Table()), old(published), old(builtAt), Table(), published, service, now);
    }

    /** The lazy sweep a read makes: scans one service and drops what has lapsed. */
    method SweepService(service: Name, now: int) returns (expired: nat)
      requires Valid()
      modifies this`records, this`published, this`builtAt
      ensures Valid() && Table() == ServiceSwept(old(Table()), service, now)
      ensures expired == |set k | k in LapsedKeys(old(Table()), now) && k.service == service|
      ensures if expired == 0 then published == old(published) && builtAt == old(builtAt)
              else builtAt == old(builtAt)[service := now] && RepublishedOnly(old(published), published, service)
    {
      hide Fresh, Indexed, IsHeap, Cached;
      var todo := set k | k in records && k.service == service;
      var gone: set<Key> := {};
      ghost var m := Table();
      while todo != {}
        invariant todo <= records.Keys && gone <= records.Keys
        invariant forall k :: k in gone <==> k in m && k.service == service && k !in todo && Lapsed(m[k], now)
        decreases todo
      {
        var k :| k in todo;
        todo := todo - {k};
        if !(records[k].lease.expiresAt > now) {
          gone := gone + {k};
        }
      }
      assert gone == set k | k in LapsedKeys(m, now) && k.service == service;
      expired := |gone|;
      if expired > 0 {
        hide LeasesOf;
        Remove(gone, service, now);
      } else {
        assert m - gone == m;
      }
    }

    /**
     Snapshot of a service. With a clock that does not go backwards, what it returns, cached or
     rebuilt, is exactly the plain scan of the leases at `now`, and reading never changes that scan.
     */
    method Snapshot(service: Name, now: int) returns (err: Error, p: Published)
      requires Valid() && NotBefore(now)
      modifies this`records, this`published, this`builtAt
      ensures Valid() && NotBefore(now)
      ensures err == if service == [] then InvalidInstance else Ok
      ensures err.Ok? ==> Lists(p.instances, old(Table()), service, now)
      ensures err.Ok? ==> InIdOrder(p.instances) && ExactlyUnexpired(p.instances, old(Table()), service, now)
      ensures Table() == old(Table()) || Table() == ServiceSwept(old(Table()), service, now)
      ensures err.Ok? && service in old(published) ==> old(published)[service].version <= p.version
    {
      hide Fresh, Indexed, IsHeap, Cached, LeasesOf, Lists, ServiceSwept, InIdOrder, ExactlyUnexpired;
      if service == [] {
        return InvalidInstance, Published(0, [], Never);
      }
      if service !in published {
        NothingListed(Table(), published, builtAt, service, now);
        KeysAgree(records, expiries, generation);
        ListingMeans([], Table(), service, now);
        return Ok, Published(0, [], Never);
      }
      ghost var m := Table();
      KeysAgree(records, expiries, generation);
      CurrentListing(Table(), published, builtAt, service, now);
      p := published[service];
      if NeedsExpiry(p, now) {
        var expired := SweepService(service, now);
        KeysAgree(records, expiries, generation);
        CurrentListing(Table(), published, builtAt, service, now);
        SweptListing(published[service].instances, m, service, now);
        p := published[service];
      }
      ListingMeans(p.instances, m, service, now);
      return Ok, p;
    }

    /**
     The heap sweep: pops every entry that is due, drops the leases those entries still stand for
     and republishes the services it touched. Despite stale entries, what it removes is exactly
     the leases that have lapsed, each reported once.
     */
    method SweepExpired(now: int) returns (expired: seq<Key>)
      requires Valid()
      modifies this
      ensures Valid() && Table() == Live(old(Table()), now)
      ensures NoDuplicates(expired) && forall k :: k in expired <==> k in LapsedKeys(old(Table()), now)
      ensures forall s :: s in builtAt ==> s in old(builtAt) && builtAt[s] in {old(builtAt)[s], now}
      ensures RepublishedAll(old(published), published, LapsedServices(old(Table()), now))
    {
      hide Fresh, Indexed, IsHeap, Cached, CachedBut, LeasesOf, RepublishedAll;
      var dirty;
      expired, dirty := Drain(now);
      Drained(old(records), records, expiries, generation, expired, dirty, now);
      SweptElsewhere(old(Table()), Table(), published, builtAt, dirty);
      assert dirty == LapsedServices(old(Table()), now);
      Republish(dirty, now);
    }

    method Drain(now: int) returns (expired: seq<Key>, dirty: set<Name>)
      requires Indexed(records, expiries, generation)
      modifies this`records, this`expiries
      ensures Indexed(records, expiries, generation)
      ensures expiries == [] || expiries[0].expiresAt > now
      ensures Dropped(old(records), records, expired, dirty, now)
    {
      hide Dropped, Indexed;
      expired, dirty := [], {};
      NoneDropped(records, now);
      while expiries != [] && !(expiries[0].expiresAt > now)
        invariant Indexed(records, expiries, generation)
        invariant Dropped(old(records), records, expired, dirty, now)
        decreases |expiries|
      {
        HeapOf(records, expiries, generation);
        var entry, rest := Pop(expiries);
        assert |multiset(expiries)| == |multiset(rest)| + 1;
        PopKeepsIndex(records, expiries, generation, entry, rest);
        expiries := rest;
        if entry.key in records && records[entry.key].generation == entry.generation
           && !(records[entry.key].lease.expiresAt > now) {
          DropOne(old(records), records, expired, dirty, entry.key, now);
          records := records - {entry.key};
          dirty := dirty + {entry.key.service};
          expired := expired + [entry.key];
        }
      }
    }

    method Republish(dirty: set<Name>, now: int)
      requires Indexed(records, expiries, generation) && CachedBut(Table(), published, builtAt, dirty)
      modifies this`published, this`builtAt
      ensures Valid() && RepublishedAll(old(published), published, dirty)
      ensures forall s :: s in builtAt ==> s in old(builtAt) && builtAt[s] in {old(builtAt)[s], now}
    {
      hide Fresh, Indexed, IsHeap, LeasesOf, RepublishedAll, RepublishedOnly, CachedBut, Cached;
      KeysAgree(records, expiries, generation);
      var todo := dirty;
      DirtyIsPublished(Table(), published, builtAt, dirty);
      NoneRepublished(published, dirty - todo);
      while todo != {}
        invariant todo <= dirty && CachedBut(Table(), published, builtAt, todo)
        invariant RepublishedAll(old(published), published, dirty - todo)
        invariant builtAt.Keys == old(builtAt).Keys
        invariant forall s :: s in builtAt ==> builtAt[s] in {old(builtAt)[s], now}
        decreases todo
      {
        var s :| s in todo;
        ghost var between, built, done := published, builtAt, dirty - todo;
        Rebuild(s, now);
        RepublishedOne(old(published), between, published, done, s);
        RebuiltOne(Table(), between, built, todo, s, published, now);
        todo := todo - {s};
        assert dirty - todo == done + {s};
      }
      assert dirty - todo == dirty;
      AllRebuilt(Table(), published, builtAt, todo);
    }
  }

  lemma OwnKey(records: map<Key, Stored>, expiries: seq<Entry>, generation: nat, key: Key)
    requires Indexed(records, expiries, generation) && key in records
    ensures records[key].lease.instance.key == key && records[key].lease == LeasesOf(records)[key]
  {
  }

  lemma RemovedTable(records: map<Key, Stored>, expiries: seq<Entry>, generation: nat, gone: set<Key>, service: Name)
    requires Indexed(records, expiries, generation) && forall k :: k in gone ==> k.service == service
    ensures var m, m' := LeasesOf(records), LeasesOf(records - gone);
            && m' == m - gone && WellKeyed(m') && SameElsewhere(m, m', service)
            && Indexed(records - gone, expiries, generation)
  {
  }

  lemma CurrentListing(m: Table, published: map<Name, Published>, builtAt: map<Name, int>, service: Name, now: int)
    requires WellKeyed(m) && Cached(m, published, builtAt)
    requires service in published && forall s :: s in builtAt ==> builtAt[s] <= now
    ensures Lists(published[service].instances, m, service, now) <==> !NeedsExpiry(published[service], now)
    ensures service in builtAt && builtAt[service] == now ==> Lists(published[service].instances, m, service, now)
    ensures NeedsExpiry(published[service], now) ==>
              (set k | k in LapsedKeys(m, now) && k.service == service) != {}
  {
    var p := published[service];
    assert Fresh(p, m, service, builtAt[service]);
    hide Lists, IsNext, WellKeyed;
    CacheIsCurrent(p, m, service, builtAt[service], now);
    if NeedsExpiry(p, now) {
      SomeLapsed(p, m, service, builtAt[service], now);
    }
  }

  lemma SomeLapsed(p: Published, m: Table, service: Name, t: int, now: int)
    requires Fresh(p, m, service, t) && NeedsExpiry(p, now)
    ensures (set k | k in LapsedKeys(m, now) && k.service == service) != {}
  {
    var i :| 0 <= i < |p.instances| && m[p.instances[i].key].expiresAt == p.nextExpiresAt.time;
    var gone := set k | k in LapsedKeys(m, now) && k.service == service;
    assert Listed(p.instances[i], m, service, t);
    assert p.instances[i].key in gone;
  }

  lemma NothingListed(m: Table, published: map<Name, Published>, builtAt: map<Name, int>, service: Name, now: int)
    requires Cached(m, published, builtAt) && service !in published
    ensures Lists([], m, service, now)
  {
  }

  /** Sweeping a service leaves its plain scan as it was. */
  lemma SweptListing(instances: seq<Instance>, m: Table, service: Name, now: int)
    requires Lists(instances, ServiceSwept(m, service, now), service, now)
    ensures Lists(instances, m, service, now)
  {
    var m' := ServiceSwept(m, service, now);
    forall k | k in m && k.service == service && !Lapsed(m[k], now) ensures m[k].instance in instances {
      assert k in m' && m'[k] == m[k];
    }
  }

  lemma KeysAgree(records: map<Key, Stored>, expiries: seq<Entry>, generation: nat)
    requires Indexed(records, expiries, generation)
    ensures WellKeyed(LeasesOf(records))
  {
  }

  predicate NoDuplicates(ks: seq<Key>) {
    forall i, j :: 0 <= i < j < |ks| ==> ks[i] != ks[j]
  }

  /** Listings are right except perhaps those of the services still to be republished. */
  ghost predicate CachedBut(m: Table, published: map<Name, Published>, builtAt: map<Name, int>, dirty: set<Name>) {
    && builtAt.Keys == published.Keys && dirty <= published.Keys
    && (forall k :: k in m ==> k.service in published)
    && (forall s :: s in published && s !in dirty ==> Fresh(published[s], m, s, builtAt[s]))
  }

  lemma RebuiltOne(m: Table, published: map<Name, Published>, builtAt: map<Name, int>, dirty: set<Name>, s: Name,
                   published': map<Name, Published>, now: int)
    requires CachedBut(m, published, builtAt, dirty) && s in dirty
    requires RepublishedOnly(published, published', s) && Fresh(published'[s], m, s, now)
    ensures CachedBut(m, published', builtAt[s := now], dirty - {s})
  {
    hide Fresh;
  }

  lemma DirtyIsPublished(m: Table, published: map<Name, Published>, builtAt: map<Name, int>, dirty: set<Name>)
    requires CachedBut(m, published, builtAt, dirty)
    ensures dirty <= published.Keys == builtAt.Keys
  {
  }

  lemma AllRebuilt(m: Table, published: map<Name, Published>, builtAt: map<Name, int>, dirty: set<Name>)
    requires CachedBut(m, published, builtAt, dirty) && dirty == {}
    ensures Cached(m, published, builtAt)
  {
    hide Fresh;
  }

  /** Popping the root and dropping the lease it stands for, if any, keeps the index. */
  lemma PopKeepsIndex(records: map<Key, Stored>, expiries: seq<Entry>, generation: nat, entry: Entry, rest: seq<Entry>)
    requires Indexed(records, expiries, generation)
    requires IsHeap(rest) && multiset(expiries) == multiset(rest) + multiset{entry}
    ensures var own := entry.key in records && records[entry.key].generation == entry.generation;
            && (own ==> records[entry.key].lease.expiresAt == entry.expiresAt)
            && Indexed(if own then records - {entry.key} else records, rest, generation)
  {
    forall e ensures e in rest ==> e in expiries
             ensures e in expiries && e != entry ==> e in rest
    {
      assert e in expiries <==> e in multiset(expiries);
      assert e in rest <==> e in multiset(rest);
    }
    assert entry in multiset(expiries);
  }

  /** What a sweep in progress has dropped. */
  ghost predicate Dropped(before: map<Key, Stored>, records: map<Key, Stored>, expired: seq<Key>, dirty: set<Name>, now: int) {
    && NoDuplicates(expired)
    && records == before - (set k | k in expired)
    && (forall k :: k in expired ==> k in before && Lapsed(before[k].lease, now))
    && dirty == set k | k in expired :: k.service
  }

  lemma NoneDropped(records: map<Key, Stored>, now: int)
    ensures Dropped(records, records, [], {}, now)
  {
  }

  lemma DropOne(before: map<Key, Stored>, records: map<Key, Stored>, expired: seq<Key>, dirty: set<Name>, key: Key, now: int)
    requires Dropped(before, records, expired, dirty, now) && key in records && Lapsed(records[key].lease, now)
    ensures Dropped(before, records - {key}, expired + [key], dirty + {key.service}, now)
  {
    var more := expired + [key];
    assert forall k :: k in more <==> k in expired || k == key;
  }

  lemma HeapOf(records: map<Key, Stored>, expiries: seq<Entry>, generation: nat)
    requires Indexed(records, expiries, generation)
    ensures IsHeap(expiries)
  {
  }

  /** Once no entry is due, no lease has lapsed. */
  lemma Drained(before: map<Key, Stored>, records: map<Key, Stored>, expiries: seq<Entry>, generation: nat,
                expired: seq<Key>, dirty: set<Name>, now: int)
    requires Indexed(records, expiries, generation) && (expiries == [] || expiries[0].expiresAt > now)
    requires Dropped(before, records, expired, dirty, now)
    ensures var m, m' := LeasesOf(before), LeasesOf(records);
            && m' == Live(m, now)
            && dirty == set k | k in m && k !in m' :: k.service
    ensures forall k :: k in expired <==> k in LapsedKeys(LeasesOf(before), now)
  {
    forall k | k in records ensures !Lapsed(records[k].lease, now) {
      var i :| 0 <= i < |expiries| && expiries[i] == EntryOf(k, records[k]);
      RootIsEarliest(expiries, i);
    }
    assert forall k :: k in expired <==> k in before && k !in records;
  }

  lemma SweptElsewhere(m: Table, m': Table, published: map<Name, Published>, builtAt: map<Name, int>, dirty: set<Name>)
    requires Cached(m, published, builtAt) && m'.Keys <= m.Keys && forall k :: k in m' ==> m'[k] == m[k]
    requires dirty == set k | k in m && k !in m' :: k.service
    ensures CachedBut(m', published, builtAt, dirty)
  {
    forall s | s in published && s !in dirty ensures Fresh(published[s], m', s, builtAt[s]) {
      FreshLocal(published[s], m, m', s, builtAt[s]);
    }
  }

  lemma StoredTable(records: map<Key, Stored>, expiries: seq<Entry>, generation: nat, key: Key, stored: Stored)
    requires Indexed(records, expiries, generation) && stored.lease.instance.key == key
    ensures var m, m' := LeasesOf(records), LeasesOf(records[key := stored]);
            IsHeap(expiries) && m' == m[key := stored.lease] && WellKeyed(m') && SameElsewhere(m, m', key.service)
  {
  }

  lemma PushKeepsIndex(records: map<Key, Stored>, expiries: seq<Entry>, generation: nat, key: Key, stored: Stored, expiries': seq<Entry>)
    requires Indexed(records, expiries, generation) && stored.lease.instance.key == key && stored.generation == generation + 1
    requires IsHeap(expiries') && multiset(expiries') == multiset(expiries) + multiset{EntryOf(key, stored)}
    ensures Indexed(records[key := stored], expiries', generation + 1)
  {
    forall e ensures e in expiries' <==> e in expiries || e == EntryOf(key, stored) {
      assert e in expiries' <==> e in multiset(expiries');
      assert e in expiries <==> e in multiset(expiries);
    }
  }
}
