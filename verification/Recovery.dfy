/**
 Whole runs of the durable registry: memory, snapshot file and log, through registrations,
 heartbeats, both sweeps, compaction and crashes. The run's clock never goes backwards.
 */
module Recovery {
  import opened Leases

  /**
   `wal` holds the operations in the log and `synced` how many of them an fsync has covered. `dropped`
   is a history variable: the keys whose lease had lapsed in memory when the last compaction wrote its
   snapshot, that the log does not bring back, and that were not registered since.
   */
  datatype State = State(
    memory: Table,
    snapshot: Table,
    wal: seq<Op>,
    synced: nat,
    clock: int,
    dropped: set<Key>)

  datatype Event =
    | Registered(instance: Instance, ttl: int)
    | HeartbeatSent(key: Key, fence: Fence, ttl: int, at: int)
    | ReadSwept(service: Name, at: int)
    | Swept(logged: seq<Op>, at: int, loggedAt: int)
    | Fsynced(upTo: nat, at: int)
    | Compacted(at: int, markedAt: int)
    | CompactionCut(at: int, logKept: bool, markedAt: int)   // new snapshot, log not reset, registry runs on
    | Crashed(survivors: nat, at: int)

  function TimeOf(e: Event): int {
    match e
    case Registered(inst, _) => inst.lastSeen
    case HeartbeatSent(_, _, _, at) => at
    case ReadSwept(_, at) => at
    case Swept(_, at, _) => at
    case Fsynced(_, at) => at
    case Compacted(at, _) => at
    case CompactionCut(at, _, _) => at
    case Crashed(_, at) => at
  }

  /** The latest clock reading an event makes. */
  function EndOf(e: Event): int {
    match e
    case Swept(_, at, loggedAt) => loggedAt
    case Compacted(at, markedAt) => markedAt
    case CompactionCut(_, _, markedAt) => markedAt
    case _ => TimeOf(e)
  }

  /** What the disk alone would give back: the snapshot with the log replayed over it. */
  function Image(s: State): Table {
    Replay(s.snapshot, s.wal)
  }

  /** The deletions a sweep logs: keys it expired, each at the time it was logged. */
  predicate LogsSweep(ops: seq<Op>, gone: set<Key>, at: int, loggedAt: int) {
    forall i :: 0 <= i < |ops| ==> ops[i].DeleteExpired? && ops[i].key in gone && at <= ops[i].at <= loggedAt
  }

  predicate Accepted(s: State, key: Key, fence: Fence) {
    key in s.memory && Admits(fence, s.memory[key].instance)
  }

  /** Loading the snapshot, replaying the log and sweeping, as a restart does. */
  function Recovered(snapshot: Table, wal: seq<Op>, now: int): Table {
    Live(Replay(snapshot, wal), now)
  }

  /**
   When an event can happen: the clock only moves forward; a sweep logs deletions of keys it
   expired; and only what was fsynced is sure to survive a crash.
   */
  predicate Enabled(s: State, e: Event) {
    && s.clock <= TimeOf(e) <= EndOf(e)
    && match e
       case Swept(logged, at, loggedAt) => LogsSweep(logged, LapsedKeys(s.memory, at), at, loggedAt)
       case Fsynced(upTo, _) => s.synced <= upTo <= |s.wal|
       case Crashed(survivors, _) => s.synced <= survivors <= |s.wal|
       case _ => true
  }

  function Step(s: State, e: Event): State
    requires Enabled(s, e)
  {
    var t := s.(clock := EndOf(e));
    match e
    case Registered(inst, ttl) =>
      t.(memory := Apply(s.memory, Register(inst, ttl)),
         wal := s.wal + [Register(inst, ttl)],
         dropped := s.dropped - {inst.key})
    case HeartbeatSent(key, fence, ttl, at) =>
      if Accepted(s, key, fence) then
        t.(memory := Apply(s.memory, Heartbeat(key, ttl, at)), wal := s.wal + [Heartbeat(key, ttl, at)])
      else t
    case ReadSwept(service, at) =>
      t.(memory := s.memory - set k | k in LapsedKeys(s.memory, at) && k.service == service)
    case Swept(logged, at, loggedAt) =>
      t.(memory := Live(s.memory, at), wal := s.wal + logged)
    case Fsynced(upTo, _) =>
      t.(synced := upTo)
    case Compacted(at, markedAt) =>
      t.(snapshot := Live(s.memory, at), wal := [SnapshotMark(markedAt)], synced := 1,
         dropped := LapsedKeys(s.memory, at))
    case CompactionCut(at, logKept, _) =>
      var taken, wal := Live(s.memory, at), if logKept then s.wal else [];
      t.(snapshot := taken, wal := wal, synced := if logKept then s.synced else 0,
         dropped := LapsedKeys(s.memory, at) - Replay(taken, wal).Keys)
    case Crashed(survivors, at) =>
      var wal := s.wal[..survivors];
      t.(memory := Recovered(s.snapshot, wal, at), wal := wal, synced := survivors, dropped := {})
  }

  const INITIAL := State(map[], map[], [], 0, 0, {})

  /** A run from an empty registry in which every event was possible when it happened. */
  ghost predicate IsRun(events: seq<Event>, states: seq<State>) {
    && |states| == |events| + 1
    && states[0] == INITIAL
    && forall i :: 0 <= i < |events| ==> Enabled(states[i], events[i]) && states[i + 1] == Step(states[i], events[i])
  }

  /** How memory and what the disk would give back relate. */
  ghost predicate Agree(memory: Table, image: Table, dropped: set<Key>, clock: int) {
    && (forall k :: k in memory ==> (k in image <==> k !in dropped))
    && (forall k :: k in memory && k in image ==> memory[k] == image[k])
    && (forall k :: k in image && k !in memory ==> Lapsed(image[k], clock))
  }

  /** The log says nothing about a lease in memory that memory does not say already. */
  ghost predicate Stable(memory: Table, wal: seq<Op>) {
    forall k :: k in memory ==> SameAt(Replay(memory, wal), memory, k)
  }

  ghost predicate Inv(s: State) {
    s.synced <= |s.wal| && Agree(s.memory, Image(s), s.dropped, s.clock) && Stable(s.memory, s.wal)
  }

  // ---------------------------------------------------------------- the invariant

  function KeysOf(ops: seq<Op>): set<Key> {
    set i | 0 <= i < |ops| && ops[i].DeleteExpired? :: ops[i].key
  }

  lemma {:induction false} DeletesReplayed(base: Table, ops: seq<Op>)
    requires forall i :: 0 <= i < |ops| ==> ops[i].DeleteExpired?
    ensures Replay(base, ops) == base - KeysOf(ops)
  {
    if ops != [] {
      var n := |ops| - 1;
      DeletesReplayed(base, ops[..n]);
      assert KeysOf(ops) == KeysOf(ops[..n]) + {ops[n].key};
    }
  }

  lemma MarkReplayed(base: Table, at: int)
    ensures Replay(base, [SnapshotMark(at)]) == base
  {
    assert [SnapshotMark(at)][..0] == [];
  }

  lemma WriteKeepsAgree(m: Table, image: Table, dropped: set<Key>, clock: int, op: Op)
    requires Agree(m, image, dropped, clock)
    requires op.Register? || (op.Heartbeat? && op.key in m)
    ensures Agree(Apply(m, op), Apply(image, op), if op.Register? then dropped - {op.instance.key} else dropped, clock)
  {
  }

  lemma SweepKeepsAgree(m: Table, m': Table, image: Table, dropped: set<Key>, clock: int, now: int, gone: set<Key>)
    requires Agree(m, image, dropped, clock) && clock <= now
    requires m' == m - gone && gone <= LapsedKeys(m, now)
    ensures Agree(m', image, dropped, now)
    ensures forall deleted :: deleted <= gone ==> Agree(m', image - deleted, dropped, now)
  {
  }

  /** What is live of a table agrees with the table, as its disk image and as its memory. */
  lemma FreshAgrees(m: Table, now: int)
    ensures Agree(m, Live(m, now), LapsedKeys(m, now), now)
    ensures Agree(Live(m, now), m, {}, now)
  {
  }

  lemma LaterAgrees(m: Table, image: Table, dropped: set<Key>, clock: int, now: int)
    requires Agree(m, image, dropped, clock) && clock <= now
    ensures Agree(m, image, dropped, now)
  {
  }

  lemma WriteKeepsStable(m: Table, wal: seq<Op>, op: Op)
    requires Stable(m, wal) && (op.Register? || (op.Heartbeat? && op.key in m))
    ensures Stable(Apply(m, op), wal + [op])
  {
    var m' := Apply(m, op);
    ReplayAppend(m', wal, op);
    forall k | k in m'
      ensures SameAt(Replay(m', wal + [op]), m', k)
    {
      if !Touches(op, k) {
        FixedKeyForgetsBase(m', m, wal, k);
        assert SameAt(Replay(m, wal), m, k);
      } else if op.Heartbeat? {
        assert SameAt(Replay(m, wal), m, k);
        if Fixes(wal, k) {
          FixedKeyForgetsBase(m', m, wal, k);
        } else {
          RenewalsIndependent(m', m, wal, k);
          RenewedAgain(Replay(m', wal)[k], m[k], op.ttl, op.at);
        }
      }
    }
  }

  lemma RenewedAgain(a: Lease, b: Lease, ttl: int, at: int)
    requires SameButTimes(a, Renewed(b, ttl, at))
    ensures Renewed(a, ttl, at) == Renewed(b, ttl, at)
  {
    assert a.instance.(lastSeen := at) == a.instance.(lastSeen := 0).(lastSeen := at);
  }

  /** Dropping leases, and logging operations on leases that are gone, keeps the rest stable. */
  lemma {:induction false} DropsKeepStable(m: Table, m': Table, wal: seq<Op>, ops: seq<Op>)
    requires Stable(m, wal) && m'.Keys <= m.Keys && forall k :: k in m' ==> m'[k] == m[k]
    requires forall i, k :: 0 <= i < |ops| && k in m' ==> !Touches(ops[i], k)
    ensures Stable(m', wal + ops)
  {
    forall k | k in m'
      ensures SameAt(Replay(m', wal + ops), m', k)
    {
      FixedKeyForgetsBase(m', m, wal, k);
      assert SameAt(Replay(m, wal), m, k);
      ReplayConcat(m', wal, ops);
      UntouchedKey(Replay(m', wal), ops, k);
    }
  }

  lemma {:induction false} UntouchedKey(m: Table, ops: seq<Op>, k: Key)
    requires forall i :: 0 <= i < |ops| ==> !Touches(ops[i], k)
    ensures SameAt(Replay(m, ops), m, k)
  {
    if ops != [] {
      UntouchedKey(m, ops[..|ops| - 1], k);
    }
  }

  /** What is recovered from a log is stable under it. */
  lemma RecoveredIsStable(snapshot: Table, wal: seq<Op>, now: int)
    ensures Stable(Recovered(snapshot, wal, now), wal)
  {
    var image := Replay(snapshot, wal);
    forall k | k in image
      ensures SameAt(Replay(image, wal), image, k)
    {
      ReplayTwice(snapshot, wal, k);
    }
    assert wal + [] == wal;
    DropsKeepStable(image, Live(image, now), wal, []);
  }

  lemma MarkIsStable(m: Table, at: int)
    ensures Stable(m, []) && Stable(m, [SnapshotMark(at)])
  {
    MarkReplayed(m, at);
  }

  /** A new snapshot under the old log agrees with memory just as one under a new log does. */
  lemma CutAgrees(s: State, at: int)
    requires Inv(s) && s.clock <= at
    ensures var taken := Live(s.memory, at);
            var image := Replay(taken, s.wal);
            Agree(s.memory, image, LapsedKeys(s.memory, at) - image.Keys, at)
  {
    var taken := Live(s.memory, at);
    var image := Replay(taken, s.wal);
    forall k
      ensures k in s.memory && k in image ==> s.memory[k] == image[k]
      ensures k in taken ==> k in image
      ensures k in image && k !in s.memory ==> Lapsed(image[k], at)
    {
      if k in taken {
        FixedKeyForgetsBase(taken, s.memory, s.wal, k);
      } else if k in s.memory {
        ReplayOverMissing(s.memory, taken, s.wal, k);
      } else {
        ReplayOverMissing(s.snapshot, taken, s.wal, k);
      }
      assert k in s.memory ==> SameAt(Replay(s.memory, s.wal), s.memory, k);
    }
  }

  lemma StepKeepsInv(s: State, e: Event)
    requires Inv(s) && Enabled(s, e)
    ensures Inv(Step(s, e))
  {
    hide Agree, Stable, Apply, Live, Lapsed, Replay, LogsSweep;
    var t := Step(s, e);
    LaterAgrees(s.memory, Image(s), s.dropped, s.clock, t.clock);
    match e
    case Registered(inst, ttl) =>
      ReplayAppend(s.snapshot, s.wal, Register(inst, ttl));
      WriteKeepsAgree(s.memory, Image(s), s.dropped, t.clock, Register(inst, ttl));
      WriteKeepsStable(s.memory, s.wal, Register(inst, ttl));
    case HeartbeatSent(key, fence, ttl, at) =>
      if Accepted(s, key, fence) {
        ReplayAppend(s.snapshot, s.wal, Heartbeat(key, ttl, at));
        WriteKeepsAgree(s.memory, Image(s), s.dropped, t.clock, Heartbeat(key, ttl, at));
        WriteKeepsStable(s.memory, s.wal, Heartbeat(key, ttl, at));
      }
    case ReadSwept(service, at) =>
      SweepKeepsAgree(s.memory, t.memory, Image(s), s.dropped, s.clock, at,
                      set k | k in LapsedKeys(s.memory, at) && k.service == service);
      assert s.wal + [] == s.wal;
      DropsKeepStable(s.memory, t.memory, s.wal, []);
    case Swept(logged, at, loggedAt) =>
      SweptImage(s, logged, at, loggedAt, |logged|);
      assert t.wal[..|t.wal|] == t.wal;
      SweptStable(s.memory, s.wal, logged, at, loggedAt);
    case Fsynced(_, _) =>
    case Compacted(at, markedAt) =>
      MarkReplayed(t.snapshot, markedAt);
      FreshAgrees(s.memory, at);
      LaterAgrees(s.memory, t.snapshot, t.dropped, at, t.clock);
      MarkIsStable(s.memory, markedAt);
    case CompactionCut(at, logKept, markedAt) =>
      CutKeepsInv(s, at, logKept, markedAt);
    case Crashed(_, at) =>
      FreshAgrees(Image(t), at);
      RecoveredIsStable(t.snapshot, t.wal, at);
  }

  lemma CutKeepsInv(s: State, at: int, logKept: bool, markedAt: int)
    requires Inv(s) && Enabled(s, CompactionCut(at, logKept, markedAt))
    ensures Inv(Step(s, CompactionCut(at, logKept, markedAt)))
  {
    hide Agree, Stable, Apply, Live, Lapsed, Replay;
    var t := Step(s, CompactionCut(at, logKept, markedAt));
    if logKept {
      CutAgrees(s, at);
    } else {
      NothingReplayed(t.snapshot);
      FreshAgrees(s.memory, at);
      NoneLapsedTaken(s.memory, at);
      MarkIsStable(s.memory, markedAt);
    }
    LaterAgrees(s.memory, Image(t), t.dropped, at, t.clock);
  }

  lemma NothingReplayed(base: Table)
    ensures Replay(base, []) == base
  {
  }

  lemma NoneLapsedTaken(m: Table, at: int)
    ensures LapsedKeys(m, at) - Live(m, at).Keys == LapsedKeys(m, at)
  {
  }

  lemma SweptStable(m: Table, wal: seq<Op>, logged: seq<Op>, at: int, loggedAt: int)
    requires Stable(m, wal) && LogsSweep(logged, LapsedKeys(m, at), at, loggedAt)
    ensures Stable(Live(m, at), wal + logged)
  {
    hide Stable;
    DropsKeepStable(m, Live(m, at), wal, logged);
  }

  /** After a sweep, any prefix of the deletions it logs leaves an image that agrees with memory. */
  lemma SweptImage(s: State, logged: seq<Op>, at: int, loggedAt: int, n: nat)
    requires Inv(s) && Enabled(s, Swept(logged, at, loggedAt)) && n <= |logged|
    ensures var t := Step(s, Swept(logged, at, loggedAt));
            Agree(t.memory, Replay(t.snapshot, t.wal[..|s.wal| + n]), t.dropped, t.clock)
  {
    hide Agree, Stable;
    var t, ops := Step(s, Swept(logged, at, loggedAt)), logged[..n];
    assert t.wal[..|s.wal| + n] == s.wal + ops;
    ReplayConcat(s.snapshot, s.wal, ops);
    DeletesReplayed(Image(s), ops);
    var gone := LapsedKeys(s.memory, at);
    assert Live(s.memory, at) == s.memory - gone;
    assert KeysOf(ops) <= gone;
    SweepKeepsAgree(s.memory, t.memory, Image(s), s.dropped, s.clock, at, gone);
    LaterAgrees(t.memory, Image(s) - KeysOf(ops), s.dropped, at, t.clock);
  }

  lemma {:induction false} RunKeepsInv(events: seq<Event>, states: seq<State>, i: nat)
    requires IsRun(events, states) && i <= |events|
    ensures Inv(states[i])
  {
    if i > 0 {
      RunKeepsInv(events, states, i - 1);
      StepKeepsInv(states[i - 1], events[i - 1]);
    }
  }

  // ---------------------------------------------------------------- crash recovery

  /** No lease that compaction dropped as lapsed has been brought back to life by a heartbeat. */
  predicate NoneRevived(s: State, now: int) {
    forall k :: k in s.dropped && k in s.memory ==> Lapsed(s.memory[k], now)
  }

  lemma RecoveryIffAt(s: State, now: int)
    requires Agree(s.memory, Image(s), s.dropped, s.clock) && s.clock <= now
    ensures Recovered(s.snapshot, s.wal, now) == Live(s.memory, now) <==> NoneRevived(s, now)
  {
    var image, live := Recovered(s.snapshot, s.wal, now), Live(s.memory, now);
    if !NoneRevived(s, now) {
      var k :| k in s.dropped && k in s.memory && !Lapsed(s.memory[k], now);
      assert k in live && k !in image;
    } else {
      assert forall k :: k in image <==> k in live;
    }
  }

  /**
   Exact crash recovery: at any point of any run, a restart from the whole log gives exactly the
   live leases -- same deadlines, epochs and owner tokens -- if and only if no heartbeat revived
   a lease that compaction had already dropped.
   */
  lemma RecoveryIff(events: seq<Event>, states: seq<State>, i: nat, now: int)
    requires IsRun(events, states) && i <= |events| && states[i].clock <= now
    ensures var s := states[i];
            Recovered(s.snapshot, s.wal, now) == Live(s.memory, now) <==> NoneRevived(s, now)
  {
    RunKeepsInv(events, states, i);
    RecoveryIffAt(states[i], now);
  }

  /** Every accepted heartbeat arrives before its lease lapses. */
  ghost predicate AllInTime(events: seq<Event>, states: seq<State>)
    requires IsRun(events, states)
  {
    forall i :: 0 <= i < |events| && events[i].HeartbeatSent? ==>
      Accepted(states[i], events[i].key, events[i].fence) ==> !Lapsed(states[i].memory[events[i].key], events[i].at)
  }

  lemma {:induction false} InTimeRevivesNone(events: seq<Event>, states: seq<State>, i: nat)
    requires IsRun(events, states) && i <= |events| && AllInTime(events, states)
    ensures NoneRevived(states[i], states[i].clock)
  {
    if i > 0 {
      InTimeRevivesNone(events, states, i - 1);
      var s, e := states[i - 1], events[i - 1];
      assert states[i] == Step(s, e);
    }
  }

  /** With in-time heartbeats the registry recovers exactly what was live, at every point of every run. */
  lemma CrashRecovery(events: seq<Event>, states: seq<State>, i: nat, now: int)
    requires IsRun(events, states) && i <= |events| && AllInTime(events, states) && states[i].clock <= now
    ensures var s := states[i]; Recovered(s.snapshot, s.wal, now) == Live(s.memory, now)
  {
    InTimeRevivesNone(events, states, i);
    RecoveryIff(events, states, i, now);
  }

  // ---------------------------------------------------------------- crashes that lose or mix

  /**
   A crash between renaming the new snapshot and resetting the log, or while the log is truncated
   and re-marked: replaying the whole old log over the new snapshot, an empty log, or the marker
   alone all recover the leases that were live. The old snapshot does so exactly when no dropped
   lease was revived, so the new one is never worse.
   */
  lemma MidCompaction(s: State, snapshotAt: int, now: int)
    requires Inv(s) && s.clock <= snapshotAt <= now
    ensures var taken := Live(s.memory, snapshotAt);
            && Recovered(taken, s.wal, now) == Live(s.memory, now)
            && Recovered(taken, [], now) == Live(s.memory, now)
            && (forall t :: Recovered(taken, [SnapshotMark(t)], now) == Live(s.memory, now))
            && (Recovered(s.snapshot, s.wal, now) == Live(s.memory, now) <==> NoneRevived(s, now))
  {
    var taken, live := Live(s.memory, snapshotAt), Live(s.memory, now);
    RecoveryIffAt(s, now);
    CutAgrees(s, snapshotAt);
    var cut := s.(snapshot := taken, clock := snapshotAt,
                  dropped := LapsedKeys(s.memory, snapshotAt) - Replay(taken, s.wal).Keys);
    RecoveryIffAt(cut, now);
    assert NoneRevived(cut, now);
    assert Live(taken, now) == live;
    forall t ensures Replay(taken, [SnapshotMark(t)]) == taken {
      MarkReplayed(taken, t);
    }
  }

  /**
   The same over whole runs: when a compaction is cut short and the registry crashes with its log on
   disk, as it always is in sync mode "always", the restart holds exactly the leases that were live.
   */
  lemma CompactionCrashLosesNothing(events: seq<Event>, states: seq<State>, i: nat)
    requires IsRun(events, states) && i + 1 < |events| && events[i].CompactionCut?
    requires events[i + 1].Crashed? && events[i + 1].survivors == |states[i + 1].wal|
    ensures states[i + 2].memory == Live(states[i].memory, events[i + 1].at)
  {
    hide Recovered, Live, Replay, Agree, Stable;
    RunKeepsInv(events, states, i);
    var s, t, at := states[i], states[i + 1], events[i + 1].at;
    assert t == Step(s, events[i]) && states[i + 2] == Step(t, events[i + 1]);
    assert t.wal[..|t.wal|] == t.wal;
    MidCompaction(s, events[i].at, at);
  }

  /** Compactions that leave the old log under a new snapshot do so with the whole log fsynced. */
  ghost predicate CutsSynced(events: seq<Event>, states: seq<State>)
    requires IsRun(events, states)
  {
    forall i :: 0 <= i < |events| && events[i].CompactionCut? ==> events[i].logKept ==> states[i].synced == |states[i].wal|
  }

  /**
   Group commit: whatever prefix of the log survives a crash, the restart gives the leases, still
   unexpired now, of the registry as it was at some earlier point of the run. An unsynced log under
   a newer snapshot is the exception, and `UnsyncedCutMixes` shows why.
   */
  lemma {:induction false} PrefixConsistency(events: seq<Event>, states: seq<State>, i: nat, survivors: nat, now: int)
    returns (j: nat)
    requires IsRun(events, states) && i <= |events| && AllInTime(events, states) && CutsSynced(events, states)
    requires states[i].synced <= survivors <= |states[i].wal| && states[i].clock <= now
    ensures j <= i && states[i].wal[..survivors] <= states[j].wal
    ensures Recovered(states[i].snapshot, states[i].wal[..survivors], now) == Live(states[j].memory, now)
  {
    hide Recovered, Live, Replay, Agree;
    var s := states[i];
    if survivors == |s.wal| {
      CrashRecovery(events, states, i, now);
      assert s.wal[..survivors] == s.wal;
      j := i;
    } else {
      var e, before := events[i - 1], states[i - 1];
      assert s == Step(before, e);
      if e.Swept? && survivors >= |before.wal| {
        RunKeepsInv(events, states, i - 1);
        InTimeRevivesNone(events, states, i);
        SweptImage(before, e.logged, e.at, e.loggedAt, survivors - |before.wal|);
        RecoveryIffAt(s.(wal := s.wal[..survivors]), now);
        j := i;
      } else {
        assert s.wal[..survivors] == before.wal[..survivors];
        j := PrefixConsistency(events, states, i - 1, survivors, now);
      }
    }
  }

  /**
   The failing family behind `NoneRevived`: the lease lapses, a compaction drops it, and a heartbeat
   the registry still accepts brings it back in memory only. A restart then loses a live lease.
   */
  lemma RevivedLeaseIsLost(inst: Instance, ttl: int, compactAt: int, beatAt: int, newTtl: int, now: int)
    requires 0 <= inst.lastSeen && 0 < ttl && inst.lastSeen + ttl <= compactAt <= beatAt <= now < beatAt + newTtl
    ensures var events := [Registered(inst, ttl), Compacted(compactAt, compactAt),
                           HeartbeatSent(inst.key, Owner(inst.epoch, inst.token), newTtl, beatAt)];
            exists states: seq<State> :: IsRun(events, states) &&
              inst.key in Live(states[3].memory, now) &&
              inst.key !in Recovered(states[3].snapshot, states[3].wal, now)
  {
    var events := [Registered(inst, ttl), Compacted(compactAt, compactAt),
                   HeartbeatSent(inst.key, Owner(inst.epoch, inst.token), newTtl, beatAt)];
    var s1 := Step(INITIAL, events[0]);
    var s2 := Step(s1, events[1]);
    var s3 := Step(s2, events[2]);
    var states := [INITIAL, s1, s2, s3];
    assert IsRun(events, states);
    RunKeepsInv(events, states, 3);
    assert inst.key in s3.dropped;
  }

  /**
   Why an unsynced log under a newer snapshot is excluded: a lease renewed twice, another registered
   after that, and a compaction cut short. A crash that keeps only the first renewal recovers the
   old deadline next to the new lease, which the registry never held together.
   */
  lemma UnsyncedCutMixes(a: Instance, b: Instance, ttl: int)
    requires a.key != b.key && a.lastSeen == 0 && b.lastSeen == 3 && ttl > 4
    ensures var events := [Registered(a, ttl), HeartbeatSent(a.key, Open, ttl, 1), HeartbeatSent(a.key, Open, ttl, 2),
                           Registered(b, ttl), CompactionCut(4, true, 4)];
            exists states: seq<State> :: IsRun(events, states) && AllInTime(events, states) &&
              states[5].synced <= 2 <= |states[5].wal| &&
              forall j :: 0 <= j <= 5 ==>
                Recovered(states[5].snapshot, states[5].wal[..2], 4) != Live(states[j].memory, 4)
  {
    var events := [Registered(a, ttl), HeartbeatSent(a.key, Open, ttl, 1), HeartbeatSent(a.key, Open, ttl, 2),
                   Registered(b, ttl), CompactionCut(4, true, 4)];
    hide Replay;
    var la, lb := Lease(a.(lastSeen := 2), 2 + ttl), Lease(b, 3 + ttl);
    var s1 := Step(INITIAL, events[0]);
    assert s1.memory == map[a.key := Lease(a, ttl)];
    var s2 := Step(s1, events[1]);
    assert s2.memory == map[a.key := Lease(a.(lastSeen := 1), 1 + ttl)];
    var s3 := Step(s2, events[2]);
    assert s3.memory == map[a.key := la];
    var s4 := Step(s3, events[3]);
    assert s4.memory == map[a.key := la, b.key := lb];
    var s5 := Step(s4, events[4]);
    var states := [INITIAL, s1, s2, s3, s4, s5];
    assert IsRun(events, states);
    assert s5.snapshot == s5.memory;
    assert s5.wal[..2] == [Register(a, ttl), Heartbeat(a.key, ttl, 1)];
    TwoReplayed(s5.snapshot, Register(a, ttl), Heartbeat(a.key, ttl, 1));
    var r := Recovered(s5.snapshot, s5.wal[..2], 4);
    assert r[a.key].expiresAt == 1 + ttl && b.key in r;
  }

  lemma TwoReplayed(base: Table, first: Op, second: Op)
    ensures Replay(base, [first, second]) == Apply(Apply(base, first), second)
  {
    NothingReplayed(base);
    ReplayAppend(base, [], first);
    ReplayAppend(base, [first], second);
    assert [] + [first] == [first] && [first] + [second] == [first, second];
  }
}
