/**
 Registrations and owner heartbeats on a revisioned lease store, for one key: `Register` is a blind
 put under a fresh epoch and token, a heartbeat reads, checks its fence and then updates only if
 the modification revision is still the one it read. Leases may expire at any time.
 */
module LeaseFencing {
  import opened Leases

  datatype Stored = Absent | Present(record: Instance, revision: nat)

  datatype Pc =
    | Idle
    | Sent(fence: Fence, at: int)
    | Read(fence: Fence, at: int, record: Instance, revision: nat)
    | Updating(fence: Fence, record: Instance, expected: nat)

  datatype State = State(
    stored: Stored,
    revision: nat,
    history: seq<Instance>,        // every registration stored for the key, oldest first
    heartbeats: map<nat, Pc>)

  datatype Action =
    | Register(record: Instance)
    | Expire
    | WriteElsewhere
    | Send(h: nat, fence: Fence, at: int)
    | Get(h: nat)
    | Check(h: nat)
    | Update(h: nat)

  function PcOf(s: State, h: nat): Pc {
    if h in s.heartbeats then s.heartbeats[h] else Idle
  }

  predicate Fresh(s: State, record: Instance) {
    forall i :: 0 <= i < |s.history| ==> s.history[i].epoch != record.epoch && s.history[i].token != record.token
  }

  predicate Enabled(s: State, a: Action) {
    match a
    case Register(record) => Fresh(s, record)
    case Send(h, _, _) => PcOf(s, h).Idle?
    case Get(h) => PcOf(s, h).Sent?
    case Check(h) => PcOf(s, h).Read?
    case Update(h) => PcOf(s, h).Updating?
    case _ => true
  }

  function At(s: State, h: nat, pc: Pc): State {
    s.(heartbeats := s.heartbeats[h := pc])
  }

  function RevisionOf(stored: Stored): nat {
    if stored.Absent? then 0 else stored.revision
  }

  function Step(s: State, a: Action): State
    requires Enabled(s, a)
  {
    match a
    case Register(record) =>
      s.(stored := Present(record, s.revision + 1), revision := s.revision + 1, history := s.history + [record])
    case Expire => s.(stored := Absent, revision := s.revision + 1)
    case WriteElsewhere => s.(revision := s.revision + 1)
    case Send(h, fence, at) => At(s, h, Sent(fence, at))
    case Get(h) =>
      var pc := s.heartbeats[h];
      At(s, h, if s.stored.Absent? then Idle else Read(pc.fence, pc.at, s.stored.record, s.stored.revision))
    case Check(h) =>
      var pc := s.heartbeats[h];
      At(s, h, if Admits(pc.fence, pc.record) then Updating(pc.fence, pc.record.(lastSeen := pc.at), pc.revision) else Idle)
    case Update(h) =>
      var pc := s.heartbeats[h];
      if RevisionOf(s.stored) == pc.expected then
        At(s.(stored := Present(pc.record, s.revision + 1), revision := s.revision + 1), h, Idle)
      else At(s, h, Idle)
  }

  ghost predicate IsRun(actions: seq<Action>, states: seq<State>) {
    && |states| == |actions| + 1 && states[0] == State(Absent, 0, [], map[])
    && forall i :: 0 <= i < |actions| ==> Enabled(states[i], actions[i]) && states[i + 1] == Step(states[i], actions[i])
  }

  /** The same registration: only heartbeats have touched it. */
  predicate SameRegistration(a: Instance, b: Instance) {
    a.(lastSeen := 0) == b.(lastSeen := 0)
  }

  /** What a heartbeat read: if the revision still stands, so does the record. */
  predicate Sound(s: State, pc: Pc) {
    match pc
    case Read(_, _, record, revision) =>
      0 < revision <= s.revision && (revision == RevisionOf(s.stored) ==> record == s.stored.record)
    case Updating(fence, record, expected) =>
      && 0 < expected <= s.revision && Admits(fence, record)
      && (expected == RevisionOf(s.stored) ==> SameRegistration(record, s.stored.record))
    case _ => true
  }

  ghost predicate Inv(s: State) {
    && RevisionOf(s.stored) <= s.revision
    && (s.stored.Present? ==> s.stored.revision > 0 && s.history != [] &&
                              SameRegistration(s.stored.record, s.history[|s.history| - 1]))
    && (forall h :: h in s.heartbeats ==> Sound(s, s.heartbeats[h]))
    && (forall i, j :: 0 <= i < j < |s.history| ==>
          s.history[i].epoch != s.history[j].epoch && s.history[i].token != s.history[j].token)
  }

  lemma StepKeepsInv(s: State, a: Action)
    requires Inv(s) && Enabled(s, a)
    ensures Inv(Step(s, a))
  {
    var t := Step(s, a);
    if a.Update? {
      assert Sound(s, s.heartbeats[a.h]);
    }
    forall h | h in t.heartbeats ensures Sound(t, t.heartbeats[h]) {
      if h in s.heartbeats {
        assert Sound(s, s.heartbeats[h]);
      }
    }
  }

  lemma {:induction false} RunKeepsInv(actions: seq<Action>, states: seq<State>, i: nat)
    requires IsRun(actions, states) && i <= |actions|
    ensures Inv(states[i])
  {
    if i > 0 {
      RunKeepsInv(actions, states, i - 1);
      StepKeepsInv(states[i - 1], actions[i - 1]);
    }
  }

  /** In every interleaving what is stored is the newest registration, changed only in its last-seen time. */
  lemma NewestRegistrationStored(actions: seq<Action>, states: seq<State>, i: nat)
    requires IsRun(actions, states) && i <= |actions| && states[i].stored.Present?
    ensures states[i].history != []
    ensures SameRegistration(states[i].stored.record, states[i].history[|states[i].history| - 1])
  {
    RunKeepsInv(actions, states, i);
  }

  /** A heartbeat that nobody interrupts. */
  function BeatAlone(s: State, h: nat, fence: Fence, at: int): State
    requires PcOf(s, h).Idle?
  {
    var read := Step(Step(s, Send(h, fence, at)), Get(h));
    if PcOf(read, h).Idle? then read
    else
      var checked := Step(read, Check(h));
      if PcOf(checked, h).Idle? then checked else Step(checked, Update(h))
  }

  /**
   An uninterrupted heartbeat of the registration's owner refreshes its last-seen time and nothing
   else; one whose epoch or token differs, or that finds nothing stored, changes nothing.
   */
  lemma BeatAloneRefreshes(s: State, h: nat, fence: Fence, at: int)
    requires Inv(s) && PcOf(s, h).Idle?
    ensures var next := BeatAlone(s, h, fence, at);
            var owns := s.stored.Present? && (fence.Open? || (fence.epoch == s.stored.record.epoch
                                              && (fence.Owner? ==> fence.token == s.stored.record.token)));
            && PcOf(next, h).Idle?
            && (owns ==> next.stored.Present? && next.stored.record == s.stored.record.(lastSeen := at))
            && (!owns ==> next.stored == s.stored && next.revision == s.revision)
  {
  }

  /** The fence names this registration's epoch, or its token. */
  predicate Names(fence: Fence, record: Instance) {
    (!fence.Open? && fence.epoch == record.epoch) || (fence.Owner? && fence.token == record.token)
  }

  lemma {:induction false} HistoryGrows(actions: seq<Action>, states: seq<State>, i: nat, j: nat)
    requires IsRun(actions, states) && i <= j <= |actions|
    ensures states[i].history <= states[j].history
    decreases j
  {
    if i < j {
      HistoryGrows(actions, states, i, j - 1);
      assert states[j] == Step(states[j - 1], actions[j - 1]);
    }
  }

  /**
   Fencing: once a newer registration has been stored, no heartbeat that carries a superseded
   registration's epoch or token ever changes the stored record again -- not even one that read,
   and passed its check, before the replacement.
   */
  lemma SupersededHeartbeatsAreFenced(actions: seq<Action>, states: seq<State>, n: nat, i: nat, j: nat)
    requires IsRun(actions, states) && i <= j < |actions|
    requires n < |states[i].history| - 1
    requires actions[j].Update? && Names(states[j].heartbeats[actions[j].h].fence, states[i].history[n])
    ensures states[j + 1].stored == states[j].stored
  {
    RunKeepsInv(actions, states, j);
    HistoryGrows(actions, states, i, j);
    var s, h := states[j], actions[j].h;
    var pc, latest := s.heartbeats[h], s.history[|s.history| - 1];
    assert Sound(s, pc);
    assert s.history[n] == states[i].history[n] && n < |s.history| - 1;
    assert latest.epoch != s.history[n].epoch && latest.token != s.history[n].token;
    assert states[j + 1] == Step(s, actions[j]);
  }
}
