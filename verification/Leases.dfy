/**
 The registry's lease table as a value: what each logged operation does to it and what of it
 is live at a given time. Times and durations are integer nanoseconds.
 */
module Leases {
  import opened Bytes
  import opened Status

  type Name = seq<Byte>
  type Labels = map<Name, Name>

  datatype Key = Key(service: Name, id: Name)

  /** A discovery record: which endpoint, where it is, and who owns the registration. */
  datatype Instance = Instance(
    key: Key,
    address: Name,
    status: Code,
    labels: Labels,
    lastSeen: int,
    epoch: Name,
    token: Name)

  datatype Lease = Lease(instance: Instance, expiresAt: int)

  type Table = map<Key, Lease>

  datatype Op =
    | Register(instance: Instance, ttl: int)
    | Heartbeat(key: Key, ttl: int, at: int)
    | DeleteExpired(key: Key, at: int)
    | SnapshotMark(at: int)

  /** A heartbeat moves the deadline and the last-seen time and nothing else. */
  function Renewed(lease: Lease, ttl: int, at: int): Lease {
    Lease(lease.instance.(lastSeen := at), at + ttl)
  }

  function Apply(m: Table, op: Op): Table {
    match op
    case Register(inst, ttl) => m[inst.key := Lease(inst, inst.lastSeen + ttl)]
    case Heartbeat(key, ttl, at) => if key in m then m[key := Renewed(m[key], ttl, at)] else m
    case DeleteExpired(key, _) => m - {key}
    case SnapshotMark(_) => m
  }

  /** Replays a log over a base table, oldest operation first. */
  function Replay(base: Table, ops: seq<Op>): Table {
    if ops == [] then base else Apply(Replay(base, ops[..|ops| - 1]), ops[|ops| - 1])
  }

  predicate Lapsed(lease: Lease, now: int) {
    lease.expiresAt <= now
  }

  /** The leases that have not lapsed at `now`. */
  function Live(m: Table, now: int): (l: Table)
    ensures forall k :: k in l <==> k in m && !Lapsed(m[k], now)
    ensures forall k :: k in l ==> l[k] == m[k]
  {
    map k | k in m && !Lapsed(m[k], now) :: m[k]
  }

  /** The lease of `k` is live at every time before `deadline` and at none from then on. */
  ghost predicate AliveUntil(m: Table, k: Key, deadline: int) {
    forall t :: k in Live(m, t) <==> t < deadline
  }

  /** The tables agree on every other key. */
  ghost predicate OnlyAt(before: Table, after: Table, k: Key) {
    after - {k} == before - {k}
  }

  function LapsedKeys(m: Table, now: int): set<Key> {
    set k | k in m && Lapsed(m[k], now)
  }

  /** What a heartbeat must present: nothing, the epoch, or the epoch and the owner token. */
  datatype Fence = Open | Epoch(epoch: Name) | Owner(epoch: Name, token: Name)

  predicate Admits(fence: Fence, inst: Instance) {
    match fence
    case Open => true
    case Epoch(e) => inst.epoch == e
    case Owner(e, t) => inst.epoch == e && inst.token == t
  }

  lemma ReplayAppend(base: Table, ops: seq<Op>, op: Op)
    ensures Replay(base, ops + [op]) == Apply(Replay(base, ops), op)
  {
    assert (ops + [op])[..|ops|] == ops;
  }

  lemma {:induction false} ReplayConcat(base: Table, a: seq<Op>, b: seq<Op>)
    ensures Replay(base, a + b) == Replay(Replay(base, a), b)
  {
    if b == [] {
      assert a + b == a;
    } else {
      var front := b[..|b| - 1];
      ReplayConcat(base, a, front);
      assert (a + b)[..|a + b| - 1] == a + front;
    }
  }

  // ---------------------------------------------------------------- one key at a time

  /** The key an operation writes, for the operations that write one. */
  predicate Touches(op: Op, k: Key) {
    match op
    case Register(inst, _) => inst.key == k
    case Heartbeat(key, _, _) => key == k
    case DeleteExpired(key, _) => key == k
    case SnapshotMark(_) => false
  }

  /** A log fixes a key when some operation sets or deletes it outright, whatever was there. */
  predicate Fixes(ops: seq<Op>, k: Key) {
    exists i :: 0 <= i < |ops| && !ops[i].Heartbeat? && Touches(ops[i], k)
  }

  predicate SameAt(a: Table, b: Table, k: Key) {
    (k in a <==> k in b) && (k in a ==> a[k] == b[k])
  }

  /** If the log fixes the key, the base it is replayed over does not matter there. */
  lemma {:induction false} FixedKeyForgetsBase(a: Table, b: Table, ops: seq<Op>, k: Key)
    requires Fixes(ops, k) || SameAt(a, b, k)
    ensures SameAt(Replay(a, ops), Replay(b, ops), k)
  {
    if ops != [] {
      var front, last := ops[..|ops| - 1], ops[|ops| - 1];
      if last.Heartbeat? || !Touches(last, k) {
        if Fixes(ops, k) {
          var i :| 0 <= i < |ops| && !ops[i].Heartbeat? && Touches(ops[i], k);
          assert front[i] == ops[i];
        }
        FixedKeyForgetsBase(a, b, front, k);
      }
    }
  }

  predicate Renews(ops: seq<Op>, k: Key) {
    exists i :: 0 <= i < |ops| && Touches(ops[i], k)
  }

  /**
   Replaying renewals only: a key is present exactly when the base has it, its registration is the
   base's, and a single renewal makes its times independent of the base.
   */
  lemma {:induction false} RenewalsIndependent(a: Table, b: Table, ops: seq<Op>, k: Key)
    requires !Fixes(ops, k)
    ensures k in Replay(a, ops) <==> k in a
    ensures k in a ==> SameButTimes(Replay(a, ops)[k], a[k])
    ensures !Renews(ops, k) ==> SameAt(Replay(a, ops), a, k)
    ensures Renews(ops, k) && k in Replay(a, ops) && k in Replay(b, ops) ==>
              SameTimes(Replay(a, ops)[k], Replay(b, ops)[k])
    decreases |ops|
  {
    if ops != [] {
      var front := ops[..|ops| - 1];
      assert !Fixes(front, k);
      assert Renews(front, k) ==> Renews(ops, k);
      RenewalsIndependent(a, b, front, k);
      RenewalsIndependent(b, a, front, k);
    }
  }

  /** Last-write analysis: replaying a log over its own result changes nothing. */
  lemma ReplayTwice(base: Table, ops: seq<Op>, k: Key)
    ensures SameAt(Replay(Replay(base, ops), ops), Replay(base, ops), k)
  {
    var once := Replay(base, ops);
    if Fixes(ops, k) {
      FixedKeyForgetsBase(once, base, ops, k);
    } else {
      RenewalsIndependent(once, base, ops, k);
      RenewalsIndependent(base, once, ops, k);
    }
  }

  /** Replaying a log over a base that lacks the key gives nothing there, or what any base gives. */
  lemma ReplayOverMissing(base: Table, missing: Table, ops: seq<Op>, k: Key)
    requires k !in missing
    ensures k in Replay(missing, ops) ==> SameAt(Replay(missing, ops), Replay(base, ops), k)
  {
    if Fixes(ops, k) {
      FixedKeyForgetsBase(missing, base, ops, k);
    } else {
      RenewalsIndependent(missing, base, ops, k);
    }
  }

  predicate SameButTimes(a: Lease, b: Lease) {
    a.instance.(lastSeen := 0) == b.instance.(lastSeen := 0)
  }

  predicate SameTimes(a: Lease, b: Lease) {
    a.instance.lastSeen == b.instance.lastSeen && a.expiresAt == b.expiresAt
  }
}
