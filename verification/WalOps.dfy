/**
 The bridge between the registry's operations and the bytes of its log file, and crash recovery
 stated on those bytes. The JSON payload codec is a pair of functions of which only the round
 trip is assumed.
 */
module WalOps {
  import opened Basics
  import opened Bytes
  import opened Status
  import opened Leases
  import opened Recovery
  import C = WalCodec

  datatype Payload = Payload(status: Code, labels: Labels, epoch: Name, token: Name)

  /** A JSON codec for register payloads. */
  datatype Json = Json(encode: Payload -> seq<Byte>, decode: seq<Byte> -> Option<Payload>)

  ghost predicate Faithful(json: Json) {
    forall p :: json.encode(p) != [] && json.decode(json.encode(p)) == Some(p)
  }

  predicate IsInt64(x: int) {
    -0x8000_0000_0000_0000 <= x < 0x8000_0000_0000_0000
  }

  predicate TimesFit(op: Op) {
    match op
    case Register(inst, ttl) => IsInt64(inst.lastSeen) && IsInt64(ttl)
    case Heartbeat(_, ttl, at) => IsInt64(ttl) && IsInt64(at)
    case DeleteExpired(_, at) => IsInt64(at)
    case SnapshotMark(at) => IsInt64(at)
  }

  function RecordOf(json: Json, op: Op): C.Record
    requires TimesFit(op)
  {
    match op
    case Register(inst, ttl) =>
      C.Record(C.OP_REGISTER, inst.lastSeen, inst.key.service, inst.key.id, inst.address, ttl,
               json.encode(Payload(inst.status, inst.labels, inst.epoch, inst.token)))
    case Heartbeat(key, ttl, at) => C.Record(C.OP_HEARTBEAT, at, key.service, key.id, [], ttl, [])
    case DeleteExpired(key, at) => C.Record(C.OP_DELETE_EXPIRED, at, key.service, key.id, [], 0, [])
    case SnapshotMark(at) => C.Record(C.OP_SNAPSHOT_MARK, at, [], [], [], 0, [])
  }

  /** The payload a register record carries; an absent one stands for the zero payload. */
  function PayloadOf(json: Json, r: C.Record): Option<Payload> {
    if r.payload == [] then Some(Payload(Healthy, map[], [], [])) else json.decode(r.payload)
  }

  /** The operation replay applies for a record, or None where it returns an error. */
  function OpOf(json: Json, r: C.Record): Option<Op> {
    var key := Key(r.service, r.id);
    if r.op == C.OP_REGISTER then
      match PayloadOf(json, r)
      case None => None
      case Some(p) =>
        Some(Register(Instance(key, r.address, Normalized(p.status), p.labels, r.timestamp, p.epoch, p.token), r.ttl))
    else if r.op == C.OP_HEARTBEAT then Some(Heartbeat(key, r.ttl, r.timestamp))
    else if r.op == C.OP_DELETE_EXPIRED then Some(DeleteExpired(key, r.timestamp))
    else if r.op == C.OP_SNAPSHOT_MARK then Some(SnapshotMark(r.timestamp))
    else None
  }

  /** The operations the registry can append: what `Append` encodes and replay reads back. */
  predicate Loggable(json: Json, op: Op) {
    TimesFit(op) && C.Valid(RecordOf(json, op)) && (op.Register? ==> !op.instance.status.Unspecified?)
  }

  /** What is written for each operation: its kind, its times, and the names where they belong. */
  lemma RecordSays(json: Json, op: Op)
    requires TimesFit(op)
    ensures var r := RecordOf(json, op);
            match op
            case Register(inst, ttl) =>
              && r.op == 1 && r.service == inst.key.service && r.id == inst.key.id && r.address == inst.address
              && r.timestamp == inst.lastSeen && r.ttl == ttl
            case Heartbeat(key, ttl, at) =>
              r.op == 2 && r.service == key.service && r.id == key.id && r.timestamp == at && r.ttl == ttl
            case DeleteExpired(key, at) => r.op == 3 && r.service == key.service && r.id == key.id && r.timestamp == at
            case SnapshotMark(at) => r.op == 4 && r.timestamp == at
  {
  }

  lemma OpRoundTrip(json: Json, op: Op)
    requires Faithful(json) && Loggable(json, op)
    ensures OpOf(json, RecordOf(json, op)) == Some(op)
  {
    if op.Register? {
      var i := op.instance;
      var p := Payload(i.status, i.labels, i.epoch, i.token);
      assert json.decode(json.encode(p)) == Some(p);
    }
  }

  predicate AllLoggable(json: Json, ops: seq<Op>) {
    forall i :: 0 <= i < |ops| ==> Loggable(json, ops[i])
  }

  function Records(json: Json, ops: seq<Op>): (rs: seq<C.Record>)
    requires AllLoggable(json, ops)
    ensures |rs| == |ops|
  {
    seq(|ops|, i requires 0 <= i < |ops| => RecordOf(json, ops[i]))
  }

  /** The log file that a sequence of appends produces. */
  function FileOf(crc: C.Checksum, json: Json, ops: seq<Op>): seq<Byte>
    requires AllLoggable(json, ops)
  {
    C.FramesOf(crc, Records(json, ops))
  }

  /** The operations replay applies for the records it keeps. */
  function OpsOf(json: Json, rs: seq<C.Record>): seq<Op>
    requires forall i :: 0 <= i < |rs| ==> OpOf(json, rs[i]).Some?
  {
    seq(|rs|, i requires 0 <= i < |rs| => OpOf(json, rs[i]).value)
  }

  /** The records whose application returns no error. */
  function Accepts(json: Json): C.Record -> bool {
    (r: C.Record) => OpOf(json, r).Some?
  }

  /** Restart from the files: load the snapshot, replay the log bytes, sweep; None where replay returns an error. */
  function RecoveredFromFile(crc: C.Checksum, json: Json, snapshot: Table, file: seq<Byte>, now: int): Option<Table> {
    C.ReplayIsCanonical(crc, Accepts(json), file);
    var replayed := C.Replay(crc, Accepts(json), file);
    if replayed.failed then None else Some(Recovered(snapshot, OpsOf(json, replayed.records), now))
  }

  /** These records are valid, and replay applies them as these operations. */
  ghost predicate Reads(json: Json, rs: seq<C.Record>, ops: seq<Op>) {
    |rs| == |ops| && forall i :: 0 <= i < |rs| ==> C.Valid(rs[i]) && OpOf(json, rs[i]) == Some(ops[i])
  }

  lemma ReadsPrefix(json: Json, rs: seq<C.Record>, ops: seq<Op>, n: nat)
    requires Reads(json, rs, ops) && n <= |rs|
    ensures C.AllValid(Accepts(json), rs)
    ensures forall i :: 0 <= i < n ==> OpOf(json, rs[..n][i]).Some?
    ensures OpsOf(json, rs[..n]) == ops[..n]
  {
    hide OpOf, C.Valid;
  }

  /**
   Recovery on bytes: if the first `kept` bytes of a log survive, the restart succeeds and recovers
   from whole operations only, exactly those whose frames lie within the surviving bytes.
   */
  lemma LogRecovery(crc: C.Checksum, json: Json, snapshot: Table, rs: seq<C.Record>, ops: seq<Op>, kept: nat, now: int)
    returns (n: nat)
    requires Reads(json, rs, ops) && kept <= |C.FramesOf(crc, rs)|
    ensures n <= |ops|
    ensures forall m :: 0 <= m <= |rs| ==> (|C.FramesOf(crc, rs[..m])| <= kept <==> m <= n)
    ensures RecoveredFromFile(crc, json, snapshot, C.FramesOf(crc, rs)[..kept], now) == Some(Recovered(snapshot, ops[..n], now))
  {
    hide C.Replay, C.FramesOf, C.Valid, OpOf, OpsOf, Reads, Accepts;
    ReadsPrefix(json, rs, ops, 0);
    n := C.CrashKeepsPrefix(crc, Accepts(json), rs, kept);
    ReadsLength(json, rs, ops);
    ReadsPrefix(json, rs, ops, n);
  }

  lemma ReadsLength(json: Json, rs: seq<C.Record>, ops: seq<Op>)
    requires Reads(json, rs, ops)
    ensures |rs| == |ops|
  {
  }

  /**
   Torn-tail recovery of a log of appends: if a crash keeps the first `kept` bytes of the log file,
   which include everything up to operation `synced`, the restart succeeds and recovers from the
   first `survivors` operations, at least the synced ones.
   */
  lemma FileRecovery(crc: C.Checksum, json: Json, snapshot: Table, ops: seq<Op>, synced: nat, kept: nat, now: int)
    returns (survivors: nat)
    requires Faithful(json) && AllLoggable(json, ops)
    requires synced <= |ops| && |FileOf(crc, json, ops[..synced])| <= kept <= |FileOf(crc, json, ops)|
    ensures synced <= survivors <= |ops|
    ensures RecoveredFromFile(crc, json, snapshot, FileOf(crc, json, ops)[..kept], now) ==
            Some(Recovered(snapshot, ops[..survivors], now))
  {
    hide C.Replay, C.FramesOf, C.Valid, OpOf, RecordOf, Loggable, OpsOf, Accepts;
    AllRoundTrip(json, ops);
    survivors := LogRecovery(crc, json, snapshot, Records(json, ops), ops, kept, now);
    assert Records(json, ops[..synced]) == Records(json, ops)[..synced];
  }

  lemma AllRoundTrip(json: Json, ops: seq<Op>)
    requires Faithful(json) && AllLoggable(json, ops)
    ensures forall i :: 0 <= i < |ops| ==>
              C.Valid(Records(json, ops)[i]) && OpOf(json, Records(json, ops)[i]) == Some(ops[i])
  {
    forall i | 0 <= i < |ops| ensures OpOf(json, Records(json, ops)[i]) == Some(ops[i]) {
      OpRoundTrip(json, ops[i]);
    }
  }

  /**
   End to end: over every run with in-time heartbeats, whatever bytes of the log survive a crash
   (all the fsynced ones and any part of the rest), the restarted registry holds exactly the still
   unexpired leases of the registry as it was at some point of the run no older than the last fsync.
   */
  lemma DurableRegistry(crc: C.Checksum, json: Json, events: seq<Event>, states: seq<State>, i: nat, kept: nat, now: int)
    returns (j: nat)
    requires Faithful(json) && IsRun(events, states) && AllInTime(events, states) && i <= |events|
    requires CutsSynced(events, states) && states[i].clock <= now
    requires AllLoggable(json, states[i].wal) && states[i].synced <= |states[i].wal|
    requires |FileOf(crc, json, states[i].wal[..states[i].synced])| <= kept <= |FileOf(crc, json, states[i].wal)|
    ensures j <= i && states[i].wal[..states[i].synced] <= states[j].wal
    ensures RecoveredFromFile(crc, json, states[i].snapshot, FileOf(crc, json, states[i].wal)[..kept], now) ==
            Some(Live(states[j].memory, now))
  {
    var s := states[i];
    var survivors := FileRecovery(crc, json, s.snapshot, s.wal, s.synced, kept, now);
    j := PrefixConsistency(events, states, i, survivors, now);
    assert s.wal[..s.synced] <= s.wal[..survivors];
  }
}
