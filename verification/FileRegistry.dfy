/**
 The durable registry over the in-memory one and the log's writer: every accepted write is appended
 to the log before memory changes, compaction replaces the snapshot and the log, and a restart
 rebuilds memory from both. Each method is proved to be steps of the runs of module Recovery, with
 every outcome the log and the disk can give; what a crash leaves of the writer's bytes is related
 to the leases in memory at the end.
 */
module FileRegistries {
  import opened Basics
  import opened Bytes
  import opened Status
  import opened Leases
  import opened Registry
  import opened Recovery
  import opened WalOps
  import opened WalWriter
  import C = WalCodec

  /** How a write ends; `NotLogged` when it does not encode, `Failed` when the log does not take it. */
  datatype Outcome = Done | Refused(error: Error) | NotLogged | Failed

  datatype Answer = Taken | Unencodable | Broken

  /** What becomes of the log in a compaction: only the mark, as it was, or empty. */
  datatype Reset = Marked | Cut | Emptied

  predicate Sendable(json: Json, op: Op) {
    TimesFit(op) && C.Encodable(RecordOf(json, op))
  }

  /** Nothing keeps the log from taking the next write. */
  predicate Accepting(fatal: bool, ended: bool, io: Io) {
    !fatal && !ended && io.write && io.flush && io.sync
  }

  // ---------------------------------------------------------------- restoring records

  /** What `restoreRecord` stores at all. */
  predicate Complete(inst: Instance) {
    inst.key.id != [] && inst.key.service != [] && inst.address != []
  }

  /** What it takes over unchanged. */
  predicate Restorable(inst: Instance) {
    Complete(inst) && !inst.status.Unspecified? && inst.epoch != [] && inst.token != []
  }

  ghost predicate AllRestorable(m: Table) {
    WellKeyed(m) && forall k :: k in m ==> Restorable(m[k].instance)
  }

  /** What it stores: an unknown status is healthy, a missing epoch or token is made up. */
  predicate Fills(given: Lease, stored: Lease) {
    var a, b := given.instance, stored.instance;
    && stored.expiresAt == given.expiresAt
    && b == a.(status := Normalized(a.status), epoch := b.epoch, token := b.token)
    && b.epoch != [] && (a.epoch != [] ==> b.epoch == a.epoch)
    && b.token != [] && (a.token != [] ==> b.token == a.token)
  }

  /** Restoring a whole table: the complete records, each filled. */
  ghost predicate Filled(given: Table, stored: Table) {
    && (forall k :: k in stored <==> k in given && Complete(given[k].instance))
    && (forall k :: k in stored ==> Fills(given[k], stored[k]))
  }

  lemma FilledIsSame(given: Table, stored: Table)
    requires AllRestorable(given) && Filled(given, stored)
    ensures stored == given
  {
    forall k | k in given
      ensures k in stored && stored[k] == given[k]
    {
      assert Restorable(given[k].instance);
    }
  }

  lemma FilledLive(given: Table, stored: Table, now: int)
    requires Filled(given, stored)
    ensures Filled(Live(given, now), Live(stored, now))
  {
  }

  function OpTime(op: Op): int {
    match op
    case Register(inst, _) => inst.lastSeen
    case Heartbeat(_, _, at) => at
    case DeleteExpired(_, at) => at
    case SnapshotMark(at) => at
  }

  /** An operation of a parsed record that is not from the future. */
  predicate Timely(op: Op, now: int) {
    OpTime(op) <= now && match op
                         case Register(inst, ttl) => Complete(inst) && ttl > 0
                         case Heartbeat(key, ttl, _) => key.service != [] && key.id != [] && ttl > 0
                         case DeleteExpired(key, _) => key.service != [] && key.id != []
                         case SnapshotMark(_) => true
  }

  /** One that restoring takes over unchanged. */
  predicate Replayable(op: Op, now: int) {
    Timely(op, now) && (op.Register? ==> Restorable(op.instance))
  }

  predicate AllTimely(ops: seq<Op>, now: int) {
    forall i :: 0 <= i < |ops| ==> Timely(ops[i], now)
  }

  predicate AllReplayable(ops: seq<Op>, now: int) {
    forall i :: 0 <= i < |ops| ==> Replayable(ops[i], now)
  }

  lemma ParsedIsTimely(json: Json, r: C.Record, now: int)
    requires C.Valid(r) && OpOf(json, r).Some? && r.timestamp <= now
    ensures Timely(OpOf(json, r).value, now)
  {
  }

  lemma {:induction false} ReplayRestorable(base: Table, ops: seq<Op>, now: int)
    requires AllRestorable(base) && AllReplayable(ops, now)
    ensures AllRestorable(Replay(base, ops))
  {
    if ops != [] {
      ReplayRestorable(base, ops[..|ops| - 1], now);
      assert Replayable(ops[|ops| - 1], now);
    }
  }

  lemma LiveRestorable(m: Table, now: int)
    requires AllRestorable(m)
    ensures AllRestorable(Live(m, now))
  {
  }

  /** A logged operation applied to the restored table follows replay. */
  lemma FilledApply(given: Table, stored: Table, op: Op)
    requires Filled(given, stored) && !op.Register?
    ensures Filled(Apply(given, op), Apply(stored, op))
  {
  }

  lemma FilledRegister(given: Table, stored: Table, lease: Lease, filled: Lease)
    requires Filled(given, stored) && Complete(lease.instance) && Fills(lease, filled)
    ensures Filled(given[lease.instance.key := lease], stored[lease.instance.key := filled])
  {
  }

  // ---------------------------------------------------------------- operations and log

  /** The log in the writer holds the acknowledged operations and at most one that was never acknowledged. */
  ghost predicate Linked(crc: C.Checksum, json: Json, wal: seq<Op>, stray: seq<Op>, records: seq<C.Record>,
                         frames: seq<seq<Byte>>, torn: seq<Byte>, acked: nat)
  {
    && |stray| <= 1 && acked == |wal|
    && Reads(json, records, wal + stray)
    && Encoded(crc, records, frames, torn)
  }

  lemma LinkTaken(crc: C.Checksum, json: Json, wal: seq<Op>, records: seq<C.Record>, frames: seq<seq<Byte>>, op: Op)
    requires Linked(crc, json, wal, [], records, frames, [], |wal|)
    requires Faithful(json) && Loggable(json, op)
    ensures var r := RecordOf(json, op);
            Linked(crc, json, wal + [op], [], records + [r], frames + [C.FrameOf(crc, r)], [], |frames| + 1)
  {
    hide C.FrameOf, OpOf, RecordOf, C.Valid;
    OpRoundTrip(json, op);
    LoggableIsValid(json, op);
    assert wal + [] == wal && wal + [op] + [] == wal + [op];
  }

  lemma LinkBroken(crc: C.Checksum, json: Json, wal: seq<Op>, records: seq<C.Record>, frames: seq<seq<Byte>>, op: Op,
                   frames': seq<seq<Byte>>, torn': seq<Byte>)
    requires Linked(crc, json, wal, [], records, frames, [], |wal|)
    requires Faithful(json) && Loggable(json, op)
    requires Sent(frames', torn', frames, C.FrameOf(crc, RecordOf(json, op)))
    ensures Linked(crc, json, wal, [op], records + [RecordOf(json, op)], frames', torn', |wal|)
  {
    hide C.FrameOf, OpOf, RecordOf, C.Valid;
    OpRoundTrip(json, op);
    LoggableIsValid(json, op);
    var all := frames + [C.FrameOf(crc, RecordOf(json, op))];
    assert wal + [] == wal;
    assert forall i :: 0 <= i < |frames'| ==> frames'[i] == all[i];
    assert torn' != [] ==> torn' == all[|frames|];
  }

  lemma LoggableIsValid(json: Json, op: Op)
    requires Loggable(json, op)
    ensures C.Valid(RecordOf(json, op))
  {
  }

  lemma ReplayableIsLoggable(json: Json, op: Op)
    requires TimesFit(op) && Replayable(op, OpTime(op)) && C.Encodable(RecordOf(json, op))
    ensures Loggable(json, op)
  {
  }

  ghost function FrameList(crc: C.Checksum, rs: seq<C.Record>): (frames: seq<seq<Byte>>)
    ensures |frames| == |rs|
  {
    seq(|rs|, i requires 0 <= i < |rs| => C.FrameOf(crc, rs[i]))
  }

  /** A log as a restart finds it. */
  lemma LinkOpened(crc: C.Checksum, json: Json, records: seq<C.Record>)
    requires C.AllValid(Accepts(json), records)
    ensures Linked(crc, json, OpsOf(json, records), [], records, FrameList(crc, records), [], |records|)
    ensures C.FramesOf(crc, records) == Flatten(FrameList(crc, records))
  {
    hide C.FrameOf, OpOf, C.Valid, Reads, OpsOf, C.FramesOf, Flatten;
    OpenedReads(json, records);
    FlattenIsFrames(crc, records, FrameList(crc, records));
  }

  lemma OpenedReads(json: Json, records: seq<C.Record>)
    requires C.AllValid(Accepts(json), records)
    ensures |OpsOf(json, records)| == |records| && Reads(json, records, OpsOf(json, records) + [])
  {
    hide OpOf, C.Valid;
    assert OpsOf(json, records) + [] == OpsOf(json, records);
  }

  /** A log as a compaction leaves it. */
  lemma LinkMark(crc: C.Checksum, json: Json, at: int)
    requires IsInt64(at)
    ensures var op := SnapshotMark(at);
            var r := RecordOf(json, op);
            && C.Encodable(r) && Replayable(op, at)
            && Linked(crc, json, [op], [], [r], [C.FrameOf(crc, r)], [], 1)
            && Linked(crc, json, [], [op], [r], [], C.FrameOf(crc, r), 0)
  {
    hide C.FrameOf;
    var op := SnapshotMark(at);
    assert [op] + [] == [op] && [] + [op] == [op];
  }

  // ---------------------------------------------------------------- steps

  /** From `before` to `after` by one event and perhaps an fsync. */
  ghost predicate Then(before: State, e: Event, after: State, now: int) {
    && Enabled(before, e)
    && var t := Step(before, e);
       var f := Fsynced(after.synced, now);
       Enabled(t, f) && after == Step(t, f)
  }

  /** From `before` to `after` by nothing but time and perhaps an fsync. */
  ghost predicate Idle(before: State, after: State, now: int) {
    var f := Fsynced(after.synced, now);
    Enabled(before, f) && after == Step(before, f)
  }

  lemma ThenKeepsInv(before: State, e: Event, after: State, now: int)
    requires Inv(before) && Then(before, e, after, now)
    ensures Inv(after)
  {
    hide Inv, Step, Enabled;
    StepKeepsInv(before, e);
    StepKeepsInv(Step(before, e), Fsynced(after.synced, now));
  }

  lemma IdleStep(before: State, after: State, now: int)
    requires Inv(before) && before.clock <= now
    requires after == before.(synced := after.synced, clock := now) && before.synced <= after.synced <= |after.wal|
    ensures Idle(before, after, now) && Inv(after)
  {
    hide Inv;
    StepKeepsInv(before, Fsynced(after.synced, now));
  }

  lemma RegisterStep(before: State, inst: Instance, ttl: int, after: State)
    requires Inv(before) && before.clock <= inst.lastSeen
    requires after == before.(memory := Apply(before.memory, Op.Register(inst, ttl)),
                              wal := before.wal + [Op.Register(inst, ttl)], synced := after.synced,
                              clock := inst.lastSeen, dropped := before.dropped - {inst.key})
    requires before.synced <= after.synced <= |after.wal|
    ensures Then(before, Registered(inst, ttl), after, inst.lastSeen) && Inv(after)
  {
    hide Inv, Apply;
    ThenKeepsInv(before, Registered(inst, ttl), after, inst.lastSeen);
  }

  lemma HeartbeatStep(before: State, key: Key, fence: Fence, ttl: int, now: int, after: State)
    requires Inv(before) && before.clock <= now && Accepted(before, key, fence)
    requires after == before.(memory := Apply(before.memory, Op.Heartbeat(key, ttl, now)),
                              wal := before.wal + [Op.Heartbeat(key, ttl, now)], synced := after.synced, clock := now)
    requires before.synced <= after.synced <= |after.wal|
    ensures Then(before, HeartbeatSent(key, fence, ttl, now), after, now) && Inv(after)
  {
    hide Inv, Apply;
    ThenKeepsInv(before, HeartbeatSent(key, fence, ttl, now), after, now);
  }

  lemma SweepStep(before: State, logged: seq<Op>, now: int, end: int, after: State)
    requires Inv(before) && before.clock <= now <= end && LogsSweep(logged, LapsedKeys(before.memory, now), now, end)
    requires after == before.(memory := Live(before.memory, now), wal := before.wal + logged,
                              synced := after.synced, clock := end)
    requires before.synced <= after.synced <= |after.wal|
    ensures Then(before, Swept(logged, now, end), after, end) && Inv(after)
  {
    hide Inv, Live, LogsSweep;
    ThenKeepsInv(before, Swept(logged, now, end), after, end);
  }

  lemma CompactStep(before: State, now: int, markedAt: int, after: State)
    requires Inv(before) && before.clock <= now <= markedAt
    requires after == before.(snapshot := Live(before.memory, now), wal := [SnapshotMark(markedAt)], synced := 1,
                              clock := markedAt, dropped := LapsedKeys(before.memory, now))
    ensures Then(before, Compacted(now, markedAt), after, markedAt) && Inv(after)
  {
    hide Inv, Live;
    ThenKeepsInv(before, Compacted(now, markedAt), after, markedAt);
  }

  lemma CutStep(before: State, now: int, logKept: bool, markedAt: int, after: State)
    requires Inv(before) && before.clock <= now <= markedAt
    requires var taken, wal := Live(before.memory, now), if logKept then before.wal else [];
             after == before.(snapshot := taken, wal := wal, synced := after.synced, clock := markedAt,
                              dropped := LapsedKeys(before.memory, now) - Replay(taken, wal).Keys)
    requires (if logKept then before.synced else 0) <= after.synced <= |after.wal|
    ensures Then(before, CompactionCut(now, logKept, markedAt), after, markedAt) && Inv(after)
  {
    hide Inv, Live, Replay;
    ThenKeepsInv(before, CompactionCut(now, logKept, markedAt), after, markedAt);
  }

  /** What a restart leaves of a log file: the whole frames at its front. */
  function KeptBytes(crc: C.Checksum, json: Json, file: seq<Byte>): seq<Byte> {
    C.ReplayIsCanonical(crc, Accepts(json), file);
    file[..C.Replay(crc, Accepts(json), file).validBytes]
  }

  /** How many of `n` acknowledged operations an fsync has covered. */
  function SyncedOps(durable: int, n: nat): (m: nat)
    ensures m <= n
  {
    if durable <= 0 then 0 else if durable <= n then durable else n
  }

  class FileRegistry {
    const memory: MemoryRegistry
    const writer: Writer
    const crc: C.Checksum
    const json: Json
    var snapshot: Table
    ghost var wal: seq<Op>             // acknowledged operations in the log, oldest first
    ghost var stray: seq<Op>           // the one that failed, if it may be in the log
    ghost var records: seq<C.Record>   // their records
    ghost var clock: int
    ghost var dropped: set<Key>

    ghost predicate LogValid()
      reads this`wal, this`stray, this`records, writer
    {
      && writer.Valid() && Faithful(json)
      && Linked(crc, json, wal, stray, records, writer.frames, writer.torn, writer.acked)
      && (stray != [] ==> writer.fatal)
    }

    ghost function Synced(): nat
      reads this`wal, writer
    {
      SyncedOps(writer.Durable(), |wal|)
    }

    ghost function State(): State
      reads this, memory, writer
    {
      Recovery.State(memory.Table(), snapshot, wal, Synced(), clock, dropped)
    }

    ghost predicate Valid()
      reads this, memory, writer
    {
      && memory.Valid() && memory.NotBefore(clock) && LogValid()
      && Inv(State())
      && AllRestorable(memory.Table()) && AllRestorable(snapshot)
      && AllReplayable(wal, clock) && AllReplayable(stray, clock)
    }

    /**
     A restart on a snapshot and on the records of a log file: load the snapshot, replay the log,
     sweep what has lapsed, open the log for appending.
     */
    constructor Restart(crc: C.Checksum, json: Json, always: bool, flushRecords: nat, flushBytes: nat, snapshot: Table,
                        file: seq<Byte>, records: seq<C.Record>, now: int)
      requires flushRecords > 0 && flushBytes > 0 && Faithful(json) && WellKeyed(snapshot)
      requires C.AllValid(Accepts(json), records) && file == C.FramesOf(crc, records)
      requires AllTimely(OpsOf(json, records), now)
      ensures fresh(memory) && fresh(writer) && this.crc == crc && this.json == json && this.snapshot == snapshot
      ensures memory.Valid() && memory.NotBefore(now) && LogValid() && wal == OpsOf(json, records) && stray == []
      ensures writer.always == always && !writer.fatal && writer.Log() == writer.synced == file
      ensures Filled(Recovered(snapshot, wal, now), memory.Table())
      ensures AllRestorable(snapshot) && AllReplayable(wal, now) ==>
                Valid() && State() == Recovery.State(Recovered(snapshot, wal, now), snapshot, wal, |wal|, now, {})
    {
      hide Indexed, Cached, LeasesOf, Inv, AllReplayable, AllTimely, AllRestorable, Filled, Linked, OpsOf, Recovered,
           Writer.Valid, Faithful;
      LinkOpened(crc, json, records);
      LinkFacts(crc, json, OpsOf(json, records), [], records, FrameList(crc, records), [], |records|);
      var ops := OpsOf(json, records);
      var log := new Writer(always, flushRecords, flushBytes, file, FrameList(crc, records));
      var table := new MemoryRegistry();
      this.memory, this.writer := table, log;
      this.crc, this.json, this.snapshot := crc, json, snapshot;
      this.wal, this.stray, this.records, this.clock, this.dropped := ops, [], records, now, {};
      new;
      Recover(ops, now);
      AllReplayed(stray, now);
    }

    /** Fills memory from the snapshot and the log's operations. */
    method Recover(ops: seq<Op>, now: int)
      requires memory.Valid() && memory.Table() == map[] && memory.NotBefore(now)
      requires WellKeyed(snapshot) && AllTimely(ops, now)
      modifies memory
      ensures memory.Valid() && memory.NotBefore(now) && Filled(Recovered(snapshot, ops, now), memory.Table())
      ensures AllRestorable(snapshot) && AllReplayable(ops, now) ==>
                && memory.Table() == Recovered(snapshot, ops, now) && AllRestorable(memory.Table())
                && Inv(Recovery.State(memory.Table(), snapshot, ops, |ops|, now, {}))
    {
      hide Indexed, Cached, LeasesOf, Replay, Live, AllReplayable, AllTimely, AllRestorable, Filled, Inv, WellKeyed;
      LoadSnapshot(now);
      ReplayWal(ops, now);
      FilledLive(Replay(snapshot, ops), memory.Table(), now);
      var expired := memory.SweepExpired(now);
      if AllRestorable(snapshot) && AllReplayable(ops, now) {
        Restarted(snapshot, ops, now, memory.Table());
      }
    }

    method LoadSnapshot(now: int)
      requires memory.Valid() && memory.Table() == map[] && memory.NotBefore(now) && WellKeyed(snapshot)
      modifies memory
      ensures memory.Valid() && memory.NotBefore(now) && Filled(snapshot, memory.Table())
    {
      hide Indexed, Cached, LeasesOf, Filled;
      var todo := snapshot.Keys;
      FilledNone(snapshot - todo);
      while todo != {}
        invariant memory.Valid() && memory.NotBefore(now) && todo <= snapshot.Keys
        invariant Filled(snapshot - todo, memory.Table())
        decreases todo
      {
        var k :| k in todo;
        ghost var before := memory.Table();
        var stored := RestoreRecord(snapshot[k], now);
        FilledOne(snapshot - todo, before, snapshot[k], stored, memory.Table());
        assert (snapshot - todo)[k := snapshot[k]] == snapshot - (todo - {k});
        todo := todo - {k};
      }
      assert snapshot - todo == snapshot;
    }

    method ReplayWal(ops: seq<Op>, now: int)
      requires memory.Valid() && memory.NotBefore(now) && Filled(snapshot, memory.Table()) && AllTimely(ops, now)
      modifies memory
      ensures memory.Valid() && memory.NotBefore(now) && Filled(Replay(snapshot, ops), memory.Table())
    {
      hide Filled, Replay;
      NothingReplayed(snapshot);
      for i := 0 to |ops|
        invariant memory.Valid() && memory.NotBefore(now)
        invariant Filled(Replay(snapshot, ops[..i]), memory.Table())
      {
        ApplyRecord(ops[i], now, Replay(snapshot, ops[..i]));
        assert ops[..i + 1] == ops[..i] + [ops[i]];
        ReplayAppend(snapshot, ops[..i], ops[i]);
      }
      assert ops[..|ops|] == ops;
    }

    /** Stores a restored lease; skips one without a name or address, fills in what it lacks otherwise. */
    method RestoreRecord(lease: Lease, now: int) returns (stored: Lease)
      requires memory.Valid() && memory.NotBefore(now)
      modifies memory
      ensures memory.Valid() && memory.NotBefore(now)
      ensures if Complete(lease.instance)
              then Fills(lease, stored) && memory.Table() == old(memory.Table())[lease.instance.key := stored]
              else memory.Table() == old(memory.Table())
    {
      hide Indexed, Cached, LeasesOf;
      var inst := lease.instance;
      if inst.key.id == [] || inst.key.service == [] || inst.address == [] {
        return lease;
      }
      if inst.status == Unspecified {
        inst := inst.(status := Healthy);
      }
      assert [0] != [];
      if inst.epoch == [] {
        var epoch: Name :| epoch != [];
        inst := inst.(epoch := epoch);
      }
      if inst.token == [] {
        var token: Name :| token != [];
        inst := inst.(token := token);
      }
      stored := Lease(inst, lease.expiresAt);
      memory.Store(stored, now);
    }

    method ApplyRecord(op: Op, now: int, ghost given: Table)
      requires memory.Valid() && memory.NotBefore(now) && Timely(op, now) && Filled(given, memory.Table())
      modifies memory
      ensures memory.Valid() && memory.NotBefore(now)
      ensures Filled(Apply(given, op), memory.Table())
    {
      hide Indexed, Cached, LeasesOf, Filled, Fills;
      ghost var before := memory.Table();
      match op {
        case Register(inst, ttl) =>
          var stored := RestoreRecord(Lease(inst, inst.lastSeen + ttl), now);
          FilledRegister(given, before, Lease(inst, inst.lastSeen + ttl), stored);
        case Heartbeat(key, ttl, at) =>
          FilledApply(given, before, op);
          var err := memory.HeartbeatAt(key, Fence.Open, ttl, at);
        case DeleteExpired(key, at) =>
          FilledApply(given, before, op);
          var deleted := memory.DeleteRecord(key, at);
        case SnapshotMark(_) =>
      }
    }

    /**
     A restart from the files. It fails exactly when a record of the log does not apply; otherwise
     the log is cut at the end of its last whole frame, and memory holds what the files recover to.
     */
    static method Open(crc: C.Checksum, json: Json, always: bool, flushRecords: nat, flushBytes: nat, snapshot: Table,
                       file: seq<Byte>, now: int) returns (r: FileRegistry?)
      requires flushRecords > 0 && flushBytes > 0 && Faithful(json) && WellKeyed(snapshot)
      requires forall record :: record in C.Replay(crc, Accepts(json), file).records ==> record.timestamp <= now
      ensures match RecoveredFromFile(crc, json, snapshot, file, now)
              case None => r == null
              case Some(t) =>
                && r != null && fresh(r) && r.memory.Valid() && r.LogValid() && r.snapshot == snapshot
                && r.writer.Log() == r.writer.synced == KeptBytes(crc, json, file)
                && Filled(t, r.memory.Table())
                && (AllRestorable(snapshot) && AllReplayable(r.wal, now) ==> r.Valid() && r.memory.Table() == t)
    {
      hide C.Replay, C.FramesOf, OpOf, Recovered, Replay, Filled, AllReplayable, AllRestorable;
      var replayed := C.ReplayLog(crc, Accepts(json), file);
      C.ReplayIsCanonical(crc, Accepts(json), file);
      if replayed.failed {
        return null;
      }
      var kept := file[..replayed.validBytes];
      AllParsed(json, replayed.records, now);
      r := new FileRegistry.Restart(crc, json, always, flushRecords, flushBytes, snapshot, kept, replayed.records, now);
    }

    /** Encodes an operation and hands it to the writer, unless the caller's context has ended. */
    method Append(op: Op, request: nat, io: Io, ended: bool) returns (answer: Answer)
      requires LogValid() && TimesFit(op) && Replayable(op, OpTime(op))
      modifies this`wal, this`stray, this`records, writer
      ensures LogValid()
      ensures answer.Unencodable? <==> !Sendable(json, op)
      ensures wal == if answer.Taken? then old(wal) + [op] else old(wal)
      ensures match answer
              case Taken => stray == []
              case Unencodable => stray == old(stray) && Synced() == old(Synced())
              case Broken => stray == old(stray) || stray == [op]
      ensures old(Synced()) <= Synced() && (writer.always ==> Synced() == |wal|)
      ensures Sendable(json, op) && Accepting(old(writer.fatal), ended, io) ==> answer.Taken?
      ensures Accepting(old(writer.fatal), ended, io) ==> !writer.fatal
    {
      hide LogValid, RecordOf, C.FrameOf, C.Encodable, Replayable, Loggable, OpTime, TimesFit;
      AlwaysSynced();
      var data := C.EncodeRecord(crc, RecordOf(json, op), true, 0);
      if data == null {
        return Unencodable;
      }
      ReplayableIsLoggable(json, op);
      if ended {
        return Broken;
      }
      var ok := Send(op, data[..], request, io);
      return if ok then Taken else Broken;
    }

    /** Hands an encoded operation to the writer and waits for its answer. */
    method Send(op: Op, data: seq<Byte>, request: nat, io: Io) returns (ok: bool)
      requires LogValid() && TimesFit(op) && Loggable(json, op) && data == C.FrameOf(crc, RecordOf(json, op))
      modifies this`wal, this`stray, this`records, writer
      ensures LogValid() && old(Synced()) <= Synced() && (writer.always ==> Synced() == |wal|)
      ensures if ok then wal == old(wal) + [op] && stray == []
              else wal == old(wal) && (stray == old(stray) || stray == [op])
      ensures Accepting(old(writer.fatal), false, io) ==> ok && !writer.fatal
    {
      hide Linked, RecordOf, C.FrameOf, Loggable, Faithful, Writer.Valid, Sent, TimesFit;
      LinkFacts(crc, json, wal, stray, records, writer.frames, writer.torn, writer.acked);
      WholeLog();
      ok := writer.Submit(request, data, io);
      if ok {
        LinkTaken(crc, json, wal, records, old(writer.frames), op);
        wal, records := wal + [op], records + [RecordOf(json, op)];
      } else if !old(writer.fatal) {
        LinkBroken(crc, json, wal, records, old(writer.frames), op, writer.frames, writer.torn);
        stray, records := [op], records + [RecordOf(json, op)];
      }
      AlwaysSynced();
    }

    /** Appends a write before memory changes; where the log does not take it, only time has passed. */
    method LogWrite(op: Op, now: int, request: nat, io: Io, ended: bool) returns (answer: Answer)
      requires Valid() && clock <= now && TimesFit(op) && OpTime(op) == now && Replayable(op, now)
      modifies this`wal, this`stray, this`records, this`clock, writer
      ensures match answer
              case Taken =>
                && LogValid() && wal == old(wal) + [op] && stray == [] && clock == now
                && AllReplayable(wal, now) && AllReplayable(stray, now) && old(Synced()) <= Synced()
              case Unencodable => Valid() && State() == old(State())
              case Broken => Valid() && Idle(old(State()), State(), now)
      ensures writer.always ==> Synced() == |wal|
      ensures answer.Unencodable? <==> !Sendable(json, op)
      ensures Sendable(json, op) && Accepting(old(writer.fatal), ended, io) ==> answer.Taken?
    {
      hide Idle, Inv, AllReplayable, AllRestorable, RecordOf, LogValid, Replayable, MemoryRegistry.Valid,
           MemoryRegistry.Table, MemoryRegistry.NotBefore;
      ghost var before := State();
      LaterReplayable(wal, stray, clock, now);
      OneMoreReplayable(wal, stray, op, now);
      InvSynced(before);
      LaterMemory(clock, now);
      answer := Append(op, request, io, ended);
      if !answer.Unencodable? {
        clock := now;
      }
      if answer.Broken? {
        IdleStep(before, State(), now);
      }
    }

    lemma LaterMemory(t: int, now: int)
      requires memory.NotBefore(t) && t <= now
      ensures memory.NotBefore(now)
    {
    }

    method Register(inst: Instance, ttl: int, now: int, epoch: Name, token: Name, request: nat, io: Io, ended: bool)
      returns (out: Outcome)
      requires Valid() && clock <= now && IsInt64(now) && IsInt64(ttl) && epoch != [] && token != []
      modifies this, memory, writer
      ensures Valid() && snapshot == old(snapshot)
      ensures out.Refused? <==> inst.key.id == [] || inst.key.service == [] || inst.address == [] || ttl <= 0
      ensures out.Refused? ==> out.error == InvalidInstance
      ensures match out
              case Done => Then(old(State()), Registered(Stamped(inst, now, epoch, token), ttl), State(), now)
              case Failed => Idle(old(State()), State(), now)
              case _ => State() == old(State())
      ensures writer.always ==> State().synced == |State().wal|
      ensures var sendable := Sendable(json, Op.Register(Stamped(inst, now, epoch, token), ttl));
              !out.Refused? ==>
                && (out.NotLogged? <==> !sendable)
                && (sendable && Accepting(old(writer.fatal), ended, io) ==> out.Done?)
      ensures out.Done? ==>
                && inst.key in memory.Table() && AliveUntil(memory.Table(), inst.key, now + ttl)
                && OnlyAt(old(memory.Table()), memory.Table(), inst.key)
                && memory.Table()[inst.key].instance ==
                   inst.(status := if inst.status == Unspecified then Healthy else inst.status,
                         lastSeen := now, epoch := epoch, token := token)
      ensures !out.Done? ==> memory.Table() == old(memory.Table())
    {
      hide Then, Idle, Indexed, Cached, LeasesOf, Inv, Replay, Live, AllReplayable, AllRestorable, RecordOf, LogValid;
      AlwaysSynced();
      if !Registrable(inst, ttl) {
        return Refused(InvalidInstance);
      }
      var stamped := Stamped(inst, now, epoch, token);
      var op := Op.Register(stamped, ttl);
      ghost var before := State();
      InvSynced(before);
      ApplyRestorable(before.memory, op, now);
      var answer := LogWrite(op, now, request, io, ended);
      if answer.Unencodable? {
        return NotLogged;
      }
      if answer.Broken? {
        return Failed;
      }
      memory.Store(Lease(stamped, now + ttl), now);
      dropped := dropped - {inst.key};
      RegisterStep(before, stamped, ttl, State());
      return Done;
    }

    method Heartbeat(key: Key, fence: Fence, ttl: int, now: int, request: nat, io: Io, ended: bool) returns (out: Outcome)
      requires Valid() && clock <= now && IsInt64(now) && IsInt64(ttl)
      modifies this, memory, writer
      ensures Valid() && snapshot == old(snapshot)
      ensures match out
              case Done => Then(old(State()), HeartbeatSent(key, fence, ttl, now), State(), now)
              case Failed => Idle(old(State()), State(), now)
              case _ => State() == old(State())
      ensures writer.always ==> State().synced == |State().wal|
      ensures var err, sendable :=
                HeartbeatError(old(memory.Table()), key, fence, ttl), Sendable(json, Op.Heartbeat(key, ttl, now));
              if err.Ok? then
                && !out.Refused? && (out.NotLogged? <==> !sendable)
                && (sendable && Accepting(old(writer.fatal), ended, io) ==> out.Done?)
              else out == Refused(err)
      ensures out.Done? ==>
                && key in old(memory.Table()) && key in memory.Table()
                && AliveUntil(memory.Table(), key, now + ttl) && OnlyAt(old(memory.Table()), memory.Table(), key)
                && memory.Table()[key].instance == old(memory.Table())[key].instance.(lastSeen := now)
      ensures !out.Done? ==> memory.Table() == old(memory.Table())
    {
      hide Then, Idle, Apply, Indexed, Cached, LeasesOf, Inv, Replay, Live, AllReplayable, AllRestorable, RecordOf,
           LogValid;
      AlwaysSynced();
      var err := memory.ValidateHeartbeat(key, fence, ttl);
      if !err.Ok? {
        return Refused(err);
      }
      var op := Op.Heartbeat(key, ttl, now);
      ghost var before := State();
      InvSynced(before);
      ApplyRestorable(before.memory, op, now);
      var answer := LogWrite(op, now, request, io, ended);
      if answer.Unencodable? {
        return NotLogged;
      }
      if answer.Broken? {
        return Failed;
      }
      err := memory.HeartbeatAt(key, fence, ttl, now);
      HeartbeatStep(before, key, fence, ttl, now, State());
      return Done;
    }

    /** A read: the listing is the plain scan, and any lazy sweep it makes is not logged. */
    method Read(service: Name, now: int) returns (err: Error, p: Published)
      requires Valid() && clock <= now
      modifies this`clock, memory
      ensures Valid()
      ensures err.Ok? <==> service != []
      ensures err.Ok? ==> Lists(p.instances, old(memory.Table()), service, now)
      ensures err.Ok? ==> InIdOrder(p.instances) && ExactlyUnexpired(p.instances, old(memory.Table()), service, now)
      ensures Enabled(old(State()), ReadSwept(service, now))
      ensures State() == Step(old(State()), ReadSwept(service, now)) || State() == old(State()).(clock := now)
    {
      hide Indexed, Cached, LeasesOf, Agree, Stable, Replay, Live, AllReplayable, AllRestorable, Lists, LogValid;
      ghost var before := State();
      assert memory.NotBefore(now);
      err, p := memory.Snapshot(service, now);
      clock := now;
      StepKeepsInv(before, ReadSwept(service, now));
      SweepKeepsShape(before.memory, memory.Table());
      LaterReplayable(wal, stray, before.clock, now);
      LaterAgrees(before.memory, Image(before), dropped, before.clock, now);
    }

    /**
     The logged sweep: memory drops what has lapsed, and each drop is logged at its own time if it
     encodes and the log takes it; a drop that is not logged is not an error.
     */
    method SweepExpired(now: int, times: nat -> int, end: int, ios: nat -> Io)
      returns (expired: seq<Key>, ghost logged: seq<Op>)
      requires Valid() && clock <= now && IsInt64(now) && IsInt64(end)
      requires now <= end && forall i :: now <= times(i) <= end
      modifies this, memory, writer
      ensures Valid() && snapshot == old(snapshot)
      ensures NoDuplicates(expired) && forall k :: k in expired <==> k in LapsedKeys(old(memory.Table()), now)
      ensures Then(old(State()), Swept(logged, now, end), State(), end)
      ensures writer.always ==> State().synced == |State().wal|
      ensures !old(writer.fatal) && (forall i :: Accepting(false, false, ios(i))) ==>
                !writer.fatal && LogsEach(json, expired, times, |expired|, logged)
    {
      hide Then, Idle, Apply, LogsSweep, Replayable, Indexed, Cached, LeasesOf, Inv, Replay, Live, AllReplayable,
           AllRestorable, LogValid, RecordOf;
      AlwaysSynced();
      ghost var before := State();
      expired := memory.SweepExpired(now);
      SweepKeepsShape(before.memory, memory.Table());
      LaterReplayable(wal, stray, before.clock, end);
      logged := [];
      LogsNone(json, expired, times);
      NoneLogged(logged, LapsedKeys(before.memory, now), now, end);
      for i := 0 to |expired|
        modifies this`wal, this`stray, this`records, writer
        invariant LogValid() && wal == before.wal + logged
        invariant before.synced <= Synced() && (writer.always ==> Synced() == |wal|)
        invariant LogsSweep(logged, LapsedKeys(before.memory, now), now, end)
        invariant AllReplayable(wal, end) && AllReplayable(stray, end)
        invariant !old(writer.fatal) && (forall i :: Accepting(false, false, ios(i))) ==>
                    !writer.fatal && LogsEach(json, expired, times, i, logged)
      {
        assert expired[i] in expired;
        var op := DeleteExpired(expired[i], times(i));
        DropReplayable(before.memory, expired[i], times(i), end);
        ghost var sofar, left := wal, stray;
        var answer := Append(op, i, ios(i), false);
        OneMoreReplayable(sofar, left, op, end);
        OneMoreLogged(logged, LapsedKeys(before.memory, now), now, end, op);
        LogsOneMore(json, expired, times, i, logged);
        if answer.Taken? {
          logged := logged + [op];
        }
      }
      clock := end;
      SweepStep(before, logged, now, end, State());
    }

    /**
     Compaction: a snapshot of the live leases, then a log holding only its mark, fsynced. The snapshot
     may not be written; once it is, the caller's context may end before the log is reset, or the reset
     may fail and leave the old log or an empty one.
     */
    method Compact(now: int, markedAt: int, wrote: bool, request: nat, io: Io, io2: Io, ended: bool) returns (out: Outcome)
      requires Valid() && clock <= now <= markedAt && IsInt64(markedAt)
      modifies this, writer
      ensures Valid()
      ensures match out
              case Done => Then(old(State()), Compacted(now, markedAt), State(), markedAt)
              case NotLogged => !wrote && State() == old(State())
              case Failed =>
                || Then(old(State()), CompactionCut(now, true, markedAt), State(), markedAt)
                || Then(old(State()), CompactionCut(now, false, markedAt), State(), markedAt)
              case Refused(_) => false
      ensures out.NotLogged? <==> !wrote
      ensures wrote && !ended && !old(writer.fatal) && ResetWorks(io, io2) ==> out.Done? && !writer.fatal
    {
      hide Then, Idle, Apply, Indexed, Cached, LeasesOf, Inv, Replay, Live, AllReplayable, AllRestorable, LogValid, RecordOf,
           C.FrameOf, MemoryRegistry.Valid;
      if !wrote {
        return NotLogged;
      }
      ghost var before := State();
      InvSynced(before);
      LaterMemory(clock, markedAt);
      LaterReplayable(wal, stray, clock, markedAt);
      LiveRestorable(before.memory, now);
      var taken := TakeSnapshot(now);
      var ok := false;
      ghost var reset := Cut;
      if !ended {
        ok, reset := ResetLog(markedAt, request, io, io2);
      }
      snapshot, clock := taken, markedAt;
      if ok {
        dropped := LapsedKeys(before.memory, now);
        CompactStep(before, now, markedAt, State());
        return Done;
      }
      dropped := LapsedKeys(before.memory, now) - Replay(taken, wal).Keys;
      CutStep(before, now, reset.Cut?, markedAt, State());
      return Failed;
    }

    /** Asks the writer for a log that holds only the mark. */
    method ResetLog(markedAt: int, request: nat, io: Io, io2: Io) returns (ok: bool, ghost reset: Reset)
      requires LogValid() && IsInt64(markedAt) && AllReplayable(wal, markedAt) && AllReplayable(stray, markedAt)
      modifies this`wal, this`stray, this`records, writer
      ensures LogValid() && AllReplayable(wal, markedAt) && AllReplayable(stray, markedAt)
      ensures ok <==> reset.Marked?
      ensures match reset
              case Marked => wal == [SnapshotMark(markedAt)] && Synced() == 1
              case Cut => wal == old(wal) && old(Synced()) <= Synced()
              case Emptied => wal == [] && Synced() == 0
      ensures !old(writer.fatal) && ResetWorks(io, io2) ==> reset.Marked? && !writer.fatal
    {
      hide AllReplayable, Linked, Writer.Valid, Faithful, RecordOf, C.FrameOf, Replayable;
      LinkFacts(crc, json, wal, stray, records, writer.frames, writer.torn, writer.acked);
      var mark := SnapshotMark(markedAt);
      LinkMark(crc, json, markedAt);
      FewReplayable(mark, markedAt);
      var data := C.EncodeRecord(crc, RecordOf(json, mark), true, 0);
      ok := writer.SubmitReset(request, data[..], io, io2);
      if ok {
        wal, stray, records := [mark], [], [RecordOf(json, mark)];
        return true, Marked;
      }
      ok, reset := false, Cut;
      if writer.frames == [] && writer.torn == data[..] && writer.acked == 0 {
        wal, stray, records := [], [mark], [RecordOf(json, mark)];
        reset := Emptied;
      }
    }

    /** The unexpired records, as the snapshot file holds them. */
    method TakeSnapshot(now: int) returns (taken: Table)
      ensures taken == Live(memory.Table(), now)
    {
      taken := map[];
      var todo := memory.records.Keys;
      ghost var m := memory.Table();
      while todo != {}
        invariant todo <= memory.records.Keys
        invariant taken == Live(m - todo, now)
        decreases todo
      {
        var k :| k in todo;
        todo := todo - {k};
        if memory.records[k].lease.expiresAt > now {
          taken := taken[k := memory.records[k].lease];
        }
      }
    }

    /** The writer's timer. */
    method Tick(io: Io)
      requires Valid()
      modifies writer
      ensures Valid() && Idle(old(State()), State(), clock)
      ensures !old(writer.fatal) && io.flush && io.sync ==> State().synced == |State().wal|
    {
      hide Then, Idle, Apply, Indexed, Cached, LeasesOf, Inv, Replay, Live, AllReplayable, AllRestorable, Linked,
           Writer.Valid, Faithful;
      ghost var before := State();
      WholeLog();
      InvSynced(before);
      writer.Tick(io);
      IdleStep(before, State(), clock);
    }

    /**
     What a crash leaves: all fsynced bytes and any part of those the operating system had. A restart
     from them succeeds and recovers from whole operations in append order, at least the fsynced ones.
     */
    lemma DiskRecovers(disk: seq<Byte>, now: int) returns (n: nat)
      requires Valid() && writer.synced <= disk <= writer.synced + writer.written
      ensures Synced() <= n <= |wal + stray|
      ensures RecoveredFromFile(crc, json, snapshot, disk, now) == Some(Recovered(snapshot, (wal + stray)[..n], now))
    {
      hide Inv, AllReplayable, AllRestorable, MemoryRegistry.Valid, RecoveredFromFile, Recovered, C.FramesOf, Reads,
           C.FrameOf;
      LogBytes();
      assert writer.Log()[..|disk|] == disk;
      n := LogRecovery(crc, json, snapshot, records, wal + stray, |disk|, now);
      SyncedBytes();
    }

    /** The writer's bytes are the log of the records. */
    lemma LogBytes()
      requires LogValid()
      ensures writer.Log() == C.FramesOf(crc, records) && Reads(json, records, wal + stray)
    {
      hide C.FrameOf, C.FramesOf, Reads;
      writer.LogIsFrames(crc, records);
    }

    /** The fsynced operations lie within the fsynced bytes. */
    lemma SyncedBytes()
      requires LogValid()
      ensures Synced() <= |records| && |C.FramesOf(crc, records[..Synced()])| <= |writer.synced|
    {
      hide C.FrameOf, C.FramesOf;
      var n, d := Synced(), writer.Durable();
      ReadsLength(json, records, wal + stray);
      FlattenIsFrames(crc, records[..d], writer.frames[..d]);
      C.LongerLogIsLonger(crc, records[..d], n, d);
      assert records[..d][..n] == records[..n] && records[..d][..d] == records[..d];
    }

    /**
     The promise of sync mode "always": whatever bytes of the log a crash leaves, the restart has every
     acknowledged write. It holds exactly the live leases, if and only if no heartbeat has revived a
     lease that compaction dropped; a write that failed may show as well, if it reached the log, and
     then as it would after the acknowledged ones.
     */
    lemma AcknowledgedWritesSurvive(disk: seq<Byte>, now: int)
      requires Valid() && writer.always && writer.synced <= disk <= writer.synced + writer.written && clock <= now
      ensures var r := RecoveredFromFile(crc, json, snapshot, disk, now);
              || (r == Some(Recovered(snapshot, wal, now))
                  && (r == Some(Live(memory.Table(), now)) <==> NoneRevived(State(), now)))
              || (stray != [] && r == Some(Live(Apply(Image(State()), stray[0]), now)))
    {
      hide Agree, Stable, AllReplayable, AllRestorable, MemoryRegistry.Valid, RecoveredFromFile, Live, Replay, Apply, Linked,
           Writer.Valid, Faithful;
      var n := DiskRecovers(disk, now);
      AlwaysSynced();
      LinkFacts(crc, json, wal, stray, records, writer.frames, writer.torn, writer.acked);
      RecoveryIffAt(State(), now);
      if n == |wal| {
        assert (wal + stray)[..n] == wal;
      } else {
        assert (wal + stray)[..n] == wal + [stray[0]];
        ReplayAppend(snapshot, wal, stray[0]);
      }
    }

    lemma WholeLog()
      requires LogValid()
      ensures !writer.fatal ==> |writer.frames| == |wal| && stray == [] && writer.torn == []
    {
      hide Flatten, Linked, Covered;
      LinkFacts(crc, json, wal, stray, records, writer.frames, writer.torn, writer.acked);
    }

    /** In sync mode "always" every acknowledged operation is fsynced. */
    lemma AlwaysSynced()
      requires LogValid()
      ensures writer.always ==> Synced() == |wal|
    {
      hide Flatten, Reads, Encoded;
    }
  }

  lemma LinkFacts(crc: C.Checksum, json: Json, wal: seq<Op>, stray: seq<Op>, records: seq<C.Record>,
                  frames: seq<seq<Byte>>, torn: seq<Byte>, acked: nat)
    requires Linked(crc, json, wal, stray, records, frames, torn, acked)
    ensures acked == |wal| && |stray| <= 1 && |wal| + |stray| == |frames| + (if torn == [] then 0 else 1)
  {
  }

  lemma FilledNone(given: Table)
    requires given == map[]
    ensures Filled(given, map[])
  {
  }

  lemma FilledOne(given: Table, stored: Table, lease: Lease, filled: Lease, stored': Table)
    requires Filled(given, stored) && lease.instance.key !in given
    requires if Complete(lease.instance) then Fills(lease, filled) && stored' == stored[lease.instance.key := filled]
             else stored' == stored
    ensures Filled(given[lease.instance.key := lease], stored')
  {
  }

  lemma Restarted(snapshot: Table, ops: seq<Op>, now: int, memory: Table)
    requires AllRestorable(snapshot) && AllReplayable(ops, now) && Filled(Recovered(snapshot, ops, now), memory)
    ensures memory == Recovered(snapshot, ops, now) && AllRestorable(memory)
    ensures Inv(Recovery.State(memory, snapshot, ops, |ops|, now, {}))
  {
    hide Agree, Stable, Live, Replay;
    ReplayRestorable(snapshot, ops, now);
    LiveRestorable(Replay(snapshot, ops), now);
    FilledIsSame(Recovered(snapshot, ops, now), memory);
    FreshAgrees(Replay(snapshot, ops), now);
    RecoveredIsStable(snapshot, ops, now);
  }

  lemma AllReplayed(ops: seq<Op>, now: int)
    requires ops == []
    ensures AllReplayable(ops, now)
  {
  }

  lemma AllParsed(json: Json, records: seq<C.Record>, now: int)
    requires C.AllValid(Accepts(json), records) && forall r :: r in records ==> r.timestamp <= now
    ensures AllTimely(OpsOf(json, records), now)
  {
    forall i | 0 <= i < |records|
      ensures Timely(OpsOf(json, records)[i], now)
    {
      ParsedIsTimely(json, records[i], now);
    }
  }

  /** An accepted write keeps the table restorable. */
  lemma ApplyRestorable(m: Table, op: Op, now: int)
    requires AllRestorable(m) && Replayable(op, now)
    ensures AllRestorable(Apply(m, op))
  {
  }

  lemma LaterReplayable(wal: seq<Op>, stray: seq<Op>, clock: int, now: int)
    requires AllReplayable(wal, clock) && AllReplayable(stray, clock) && clock <= now
    ensures AllReplayable(wal, now) && AllReplayable(stray, now)
  {
  }

  lemma OneMoreReplayable(wal: seq<Op>, stray: seq<Op>, op: Op, now: int)
    requires AllReplayable(wal, now) && AllReplayable(stray, now) && Replayable(op, now)
    ensures AllReplayable(wal + [op], now) && AllReplayable([op], now) && AllReplayable([], now)
  {
  }

  lemma FewReplayable(op: Op, now: int)
    requires Replayable(op, now)
    ensures AllReplayable([op], now) && AllReplayable([], now)
  {
  }

  /** Dropping leases keeps the table restorable. */
  lemma SweepKeepsShape(m: Table, m': Table)
    requires AllRestorable(m) && m'.Keys <= m.Keys && forall k :: k in m' ==> m'[k] == m[k]
    ensures AllRestorable(m')
  {
  }

  lemma DropReplayable(m: Table, k: Key, at: int, end: int)
    requires AllRestorable(m) && k in m && at <= end
    ensures Replayable(DeleteExpired(k, at), at) && Replayable(DeleteExpired(k, at), end)
  {
  }

  /** Each of the first `n` drops that can be encoded is logged. */
  ghost predicate LogsEach(json: Json, expired: seq<Key>, times: nat -> int, n: nat, logged: seq<Op>)
    requires n <= |expired|
  {
    forall i :: 0 <= i < n && Sendable(json, DeleteExpired(expired[i], times(i)))
      ==> DeleteExpired(expired[i], times(i)) in logged
  }

  lemma LogsNone(json: Json, expired: seq<Key>, times: nat -> int)
    ensures LogsEach(json, expired, times, 0, [])
  {
  }

  lemma LogsOneMore(json: Json, expired: seq<Key>, times: nat -> int, n: nat, logged: seq<Op>)
    requires n < |expired|
    ensures var op := DeleteExpired(expired[n], times(n));
            LogsEach(json, expired, times, n, logged) ==>
              && LogsEach(json, expired, times, n + 1, logged + [op])
              && (!Sendable(json, op) ==> LogsEach(json, expired, times, n + 1, logged))
  {
    hide Sendable;
  }

  lemma NoneLogged(logged: seq<Op>, gone: set<Key>, now: int, end: int)
    requires logged == []
    ensures LogsSweep(logged, gone, now, end)
  {
  }

  lemma OneMoreLogged(logged: seq<Op>, gone: set<Key>, now: int, end: int, op: Op)
    requires LogsSweep(logged, gone, now, end) && op.DeleteExpired? && op.key in gone && now <= op.at <= end
    ensures LogsSweep(logged + [op], gone, now, end)
  {
  }

  lemma InvSynced(s: State)
    requires Inv(s)
    ensures s.synced <= |s.wal|
  {
  }
}
