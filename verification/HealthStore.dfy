/**
 Newest-wins sharing of one endpoint's health between controllers: each `Save` is a loop of Get,
 compare and compare-and-swap on the modification revision. Any number of controllers, any
 interleaving; the store numbers its writes.
 */
module HealthStore {

  /** A stored health record: when it was updated and everything else. */
  datatype Value<T> = Value(updatedAt: int, body: T)

  datatype Stored<T> = Absent | Present(value: Value<T>, revision: nat)

  datatype Pc<T> =
    | Idle
    | Saving(mine: Value<T>)                                        // about to Get
    | Comparing(mine: Value<T>, seen: Stored<T>, seenWrites: nat)   // about to compare
    | Swapping(mine: Value<T>, expected: nat, seen: Stored<T>, seenWrites: nat)

  datatype State<T> = State(
    stored: Stored<T>,
    revision: nat,                  // of the whole store, other keys included
    writers: seq<nat>,              // who wrote this key, oldest first
    saved: seq<Value<T>>,           // saves that have returned without error
    controllers: map<nat, Pc<T>>)

  datatype Action<T> =
    | Save(c: nat, value: Value<T>)
    | Get(c: nat)
    | Compare(c: nat)
    | Swap(c: nat)
    | Abort(c: nat)                 // context cancelled or store error
    | WriteElsewhere                // any write to another key

  function PcOf<T>(s: State<T>, c: nat): Pc<T> {
    if c in s.controllers then s.controllers[c] else Idle
  }

  predicate Enabled<T>(s: State<T>, a: Action<T>) {
    match a
    case Save(c, _) => PcOf(s, c).Idle?
    case Get(c) => PcOf(s, c).Saving?
    case Compare(c) => PcOf(s, c).Comparing?
    case Swap(c) => PcOf(s, c).Swapping?
    case Abort(c) => !PcOf(s, c).Idle?
    case WriteElsewhere => true
  }

  function At<T>(s: State<T>, c: nat, pc: Pc<T>): State<T> {
    s.(controllers := s.controllers[c := pc])
  }

  function RevisionOf<T>(stored: Stored<T>): nat {
    if stored.Absent? then 0 else stored.revision
  }

  /** The save has nothing to do: the stored record is newer, or is this very record. */
  predicate Superseded<T(==)>(mine: Value<T>, seen: Stored<T>) {
    seen.Present? && (seen.value.updatedAt > mine.updatedAt || seen.value == mine)
  }

  function Step<T(==)>(s: State<T>, a: Action<T>): State<T>
    requires Enabled(s, a)
  {
    match a
    case Save(c, value) => At(s, c, Saving(value))
    case Get(c) => At(s, c, Comparing(s.controllers[c].mine, s.stored, |s.writers|))
    case Compare(c) =>
      var pc := s.controllers[c];
      if Superseded(pc.mine, pc.seen) then At(s.(saved := s.saved + [pc.mine]), c, Idle)
      else At(s, c, Swapping(pc.mine, RevisionOf(pc.seen), pc.seen, pc.seenWrites))
    case Swap(c) =>
      var pc := s.controllers[c];
      if RevisionOf(s.stored) == pc.expected then
        At(s.(stored := Present(pc.mine, s.revision + 1), revision := s.revision + 1,
              writers := s.writers + [c], saved := s.saved + [pc.mine]), c, Idle)
      else At(s, c, Saving(pc.mine))
    case Abort(c) => At(s, c, Idle)
    case WriteElsewhere => s.(revision := s.revision + 1)
  }

  ghost predicate IsRun<T>(actions: seq<Action<T>>, states: seq<State<T>>) {
    && |states| == |actions| + 1 && states[0] == State(Absent, 0, [], [], map[])
    && forall i :: 0 <= i < |actions| ==> Enabled(states[i], actions[i]) && states[i + 1] == Step(states[i], actions[i])
  }

  /** A stored record no older than this one. */
  predicate Covers<T>(stored: Stored<T>, v: Value<T>) {
    stored.Present? && stored.value.updatedAt >= v.updatedAt
  }

  /**
   What a read still says about the store: the same revision means the same record, and otherwise
   another controller has written since.
   */
  predicate Remembers<T(==)>(s: State<T>, c: nat, seen: Stored<T>, seenWrites: nat) {
    && (forall n :: seenWrites <= n < |s.writers| ==> s.writers[n] != c)
    && RevisionOf(seen) <= RevisionOf(s.stored) && seenWrites <= |s.writers|
    && (RevisionOf(seen) == RevisionOf(s.stored) ==> seen == s.stored)
    && (seen == s.stored || seenWrites < |s.writers|)
    && (seen.Present? ==> s.stored.Present? && seen.value.updatedAt <= s.stored.value.updatedAt)
  }

  predicate Sound<T(==)>(s: State<T>, c: nat, pc: Pc<T>) {
    match pc
    case Comparing(_, seen, n) => Remembers(s, c, seen, n)
    case Swapping(mine, expected, seen, n) =>
      Remembers(s, c, seen, n) && expected == RevisionOf(seen) && !Superseded(mine, seen)
    case _ => true
  }

  ghost predicate Inv<T>(s: State<T>) {
    && RevisionOf(s.stored) <= s.revision && (s.stored.Present? ==> s.stored.revision > 0)
    && (forall i :: 0 <= i < |s.saved| ==> Covers(s.stored, s.saved[i]))
    && (forall c :: c in s.controllers ==> Sound(s, c, s.controllers[c]))
  }

  /** One step: the invariant is kept, and the stored record never gets older or disappears. */
  lemma StepKeepsInv<T>(s: State<T>, a: Action<T>)
    requires Inv(s) && Enabled(s, a)
    ensures Inv(Step(s, a))
    ensures s.stored.Present? ==> Covers(Step(s, a).stored, s.stored.value)
  {
    var t := Step(s, a);
    if a.Swap? {
      assert Sound(s, a.c, s.controllers[a.c]);
    }
    forall c | c in t.controllers ensures Sound(t, c, t.controllers[c]) {
      if c in s.controllers {
        assert Sound(s, c, s.controllers[c]);
      }
    }
  }

  lemma {:induction false} RunKeepsInv<T>(actions: seq<Action<T>>, states: seq<State<T>>, i: nat)
    requires IsRun(actions, states) && i <= |actions|
    ensures Inv(states[i])
  {
    if i > 0 {
      RunKeepsInv(actions, states, i - 1);
      StepKeepsInv(states[i - 1], actions[i - 1]);
    }
  }

  /** Over every interleaving the stored timestamp never decreases. */
  lemma {:induction false} NeverOlder<T>(actions: seq<Action<T>>, states: seq<State<T>>, i: nat, j: nat)
    requires IsRun(actions, states) && i <= j <= |actions| && states[i].stored.Present?
    ensures Covers(states[j].stored, states[i].stored.value)
    decreases j
  {
    if i < j {
      NeverOlder(actions, states, i, j - 1);
      RunKeepsInv(actions, states, j - 1);
      StepKeepsInv(states[j - 1], actions[j - 1]);
    }
  }

  /** The store ends no older than any save that has returned. */
  lemma NoOlderThanAnySave<T>(actions: seq<Action<T>>, states: seq<State<T>>, i: nat, n: nat)
    requires IsRun(actions, states) && i <= |actions| && n < |states[i].saved|
    ensures Covers(states[i].stored, states[i].saved[n])
  {
    RunKeepsInv(actions, states, i);
  }

  /** A save that nobody interrupts. */
  function SavedAlone<T(==)>(s: State<T>, c: nat, v: Value<T>): State<T>
    requires PcOf(s, c).Idle?
  {
    var compared := Step(Step(Step(s, Save(c, v)), Get(c)), Compare(c));
    if PcOf(compared, c).Idle? then compared else Step(compared, Swap(c))
  }

  /** An uninterrupted save returns, and its record is stored unless a strictly newer one was there. */
  lemma SaveAloneStores<T>(s: State<T>, c: nat, v: Value<T>)
    requires PcOf(s, c).Idle?
    ensures var next := SavedAlone(s, c, v);
            && next.saved == s.saved + [v] && PcOf(next, c).Idle? && next.stored.Present?
            && (s.stored.Present? && s.stored.value.updatedAt > v.updatedAt ==> next.stored == s.stored)
            && (s.stored.Absent? || s.stored.value.updatedAt <= v.updatedAt ==> next.stored.value == v)
            && (forall d :: d != c ==> PcOf(next, d) == PcOf(s, d))
  {
  }

  /** A failed swap is always somebody's success: another write landed after this controller's read. */
  lemma FailedSwapHasCause<T>(actions: seq<Action<T>>, states: seq<State<T>>, i: nat)
    requires IsRun(actions, states) && i < |actions| && actions[i].Swap?
    requires var pc := states[i].controllers[actions[i].c]; RevisionOf(states[i].stored) != pc.expected
    ensures var s, c := states[i], actions[i].c;
            exists n :: s.controllers[c].seenWrites <= n < |s.writers| && s.writers[n] != c
  {
    RunKeepsInv(actions, states, i);
    var s, c := states[i], actions[i].c;
    assert Sound(s, c, s.controllers[c]);
    assert s.writers[|s.writers| - 1] != c;
  }
}
