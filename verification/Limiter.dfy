/**
 The per-endpoint in-flight limiter: compare-and-swap loops on one counter against a maximum that
 may change at any time, for any number of acquirers and any interleaving. Each acquire attempt
 has its own number; only the holder of a permit releases it, through its release closure, which
 may be called any number of times.
 */
module Limiter {
  import opened Counting

  const DEFAULT_MAX: int := 128

  function Normalized(max: int): (m: int)
    ensures if max > 0 then m == max else m == 128
  {
    if max <= 0 then DEFAULT_MAX else max
  }

  datatype Pc =
    | Trying
    | Loaded(current: int)       // read the counter
    | Checked(current: int)      // found it below the maximum
    | Swapped(current: int)      // incremented it, maximum to be checked again
    | RollingBack
    | RollbackLoaded(current: int)
    | Held
    | Releasing                  // the closure's flag is set
    | ReleaseLoaded(current: int)
    | Rejected
    | Spent

  datatype Class = Holding | Pending | Neither

  /** A permit is held until its decrement; an undecided or refused increment is pending. */
  function ClassOf(pc: Pc): Class {
    match pc
    case Held | Releasing | ReleaseLoaded(_) => Holding
    case Swapped(_) | RollingBack | RollbackLoaded(_) => Pending
    case _ => Neither
  }

  datatype State = State(inflight: int, max: int, maxEver: int, attempts: map<nat, Pc>, returned: multiset<nat>)

  function PcOf(s: State, t: nat): Pc {
    if t in s.attempts then s.attempts[t] else Trying
  }

  function In(attempts: map<nat, Pc>, c: Class): set<nat> {
    set t | t in attempts && ClassOf(attempts[t]) == c
  }

  datatype Action = Advance(t: nat) | CallRelease(t: nat) | SetMax(max: int)

  function At(s: State, t: nat, pc: Pc): State {
    s.(attempts := s.attempts[t := pc])
  }

  /** Advance: the next atomic step of attempt `t`, a failed swap going back to the load. */
  function Step(s: State, a: Action): State {
    match a
    case SetMax(max) =>
      var m := Normalized(max);
      s.(max := m, maxEver := if m > s.maxEver then m else s.maxEver)
    case CallRelease(t) => if PcOf(s, t).Held? then At(s, t, Releasing) else s
    case Advance(t) =>
      match PcOf(s, t)
      case Trying => At(s, t, Loaded(s.inflight))
      case Loaded(current) => At(s, t, if current >= s.max then Rejected else Checked(current))
      case Checked(current) =>
        if s.inflight == current then At(s.(inflight := current + 1), t, Swapped(current)) else At(s, t, Trying)
      case Swapped(current) => At(s, t, if current + 1 <= s.max then Held else RollingBack)
      case RollingBack => At(s, t, if s.inflight <= 0 then Rejected else RollbackLoaded(s.inflight))
      case RollbackLoaded(current) =>
        if s.inflight == current then At(s.(inflight := current - 1), t, Rejected) else At(s, t, RollingBack)
      case Releasing => At(s, t, if s.inflight <= 0 then Spent else ReleaseLoaded(s.inflight))
      case ReleaseLoaded(current) =>
        if s.inflight == current
        then At(s.(inflight := current - 1, returned := s.returned + multiset{t}), t, Spent)
        else At(s, t, Releasing)
      case _ => s
  }

  function Initial(max: int): State {
    State(0, Normalized(max), Normalized(max), map[], multiset{})
  }

  ghost predicate IsRun(max: int, actions: seq<Action>, states: seq<State>) {
    && |states| == |actions| + 1 && states[0] == Initial(max)
    && forall i :: 0 <= i < |actions| ==> states[i + 1] == Step(states[i], actions[i])
  }

  predicate Counted(s: State) {
    s.inflight == |In(s.attempts, Holding)| + |In(s.attempts, Pending)|
  }

  ghost predicate Inv(s: State) {
    && Counted(s)
    && s.inflight <= s.maxEver && s.max <= s.maxEver
    && (forall t :: t in s.attempts && s.attempts[t].Checked? ==> s.attempts[t].current < s.maxEver)
    && ReturnedOnce(s)
  }

  /** A permit has been returned exactly when its attempt is spent. */
  ghost predicate ReturnedOnce(s: State) {
    forall t :: s.returned[t] == if PcOf(s, t).Spent? then 1 else 0
  }

  lemma Moved(attempts: map<nat, Pc>, t: nat, pc: Pc, c: Class)
    ensures |In(attempts[t := pc], c)| ==
            |In(attempts, c)| - One(t in attempts && ClassOf(attempts[t]) == c) + One(ClassOf(pc) == c)
  {
    var before, after := In(attempts, c), In(attempts[t := pc], c);
    assert before - {t} == after - {t};
    CountDiffers(before, after, t);
  }

  /** Whoever occupies the counter keeps it positive, so no release is ever dropped. */
  lemma OccupantCounts(s: State, t: nat)
    requires Inv(s) && !ClassOf(PcOf(s, t)).Neither?
    ensures s.inflight >= 1
  {
    assert t in In(s.attempts, ClassOf(PcOf(s, t)));
  }

  lemma StepKeepsCount(s: State, a: Action)
    requires Inv(s)
    ensures Counted(Step(s, a))
  {
    hide In;
    if !a.SetMax? {
      var t := a.t;
      if !ClassOf(PcOf(s, t)).Neither? {
        OccupantCounts(s, t);
      }
      var pc := PcOf(Step(s, a), t);
      Moved(s.attempts, t, pc, Holding);
      Moved(s.attempts, t, pc, Pending);
    }
  }

  lemma StepKeepsReturned(s: State, a: Action)
    requires Inv(s)
    ensures ReturnedOnce(Step(s, a))
  {
    if !a.SetMax? && !ClassOf(PcOf(s, a.t)).Neither? {
      OccupantCounts(s, a.t);
    }
    hide Counted;
  }

  lemma StepKeepsInv(s: State, a: Action)
    requires Inv(s)
    ensures Inv(Step(s, a))
  {
    hide Counted, ReturnedOnce;
    StepKeepsCount(s, a);
    StepKeepsReturned(s, a);
  }

  lemma {:induction false} RunKeepsInv(max: int, actions: seq<Action>, states: seq<State>, i: nat)
    requires IsRun(max, actions, states) && i <= |actions|
    ensures Inv(states[i])
  {
    if i > 0 {
      RunKeepsInv(max, actions, states, i - 1);
      StepKeepsInv(states[i - 1], actions[i - 1]);
    }
  }

  /**
   In every interleaving the counter is exactly the held permits plus the increments still to be
   rolled back, never exceeds the largest maximum ever set, and each permit is returned at most once.
   */
  lemma CounterIsExact(max: int, actions: seq<Action>, states: seq<State>, i: nat)
    requires IsRun(max, actions, states) && i <= |actions|
    ensures var s := states[i];
            && s.inflight == |In(s.attempts, Holding)| + |In(s.attempts, Pending)| <= s.maxEver
            && forall t :: s.returned[t] <= 1 && (s.returned[t] == 1 ==> ClassOf(PcOf(s, t)).Neither?)
  {
    RunKeepsInv(max, actions, states, i);
  }

  /** The next `n` steps of attempt `t`, with nothing in between. */
  function Advanced(s: State, t: nat, n: nat): State {
    if n == 0 then s else Step(Advanced(s, t, n - 1), Advance(t))
  }

  /** An uncontended acquire gets a permit exactly while the counter is below the maximum. */
  lemma AcquireAlone(s: State, t: nat)
    requires PcOf(s, t).Trying?
    ensures if s.inflight < s.max
            then Advanced(s, t, 4) == s.(inflight := s.inflight + 1, attempts := s.attempts[t := Held])
            else Advanced(s, t, 2) == s.(attempts := s.attempts[t := Rejected])
  {
    hide Advanced;
    NotAdvanced(s, t);
    Stepped(s, t, 0);
    Stepped(s, t, 1);
    AtTwice(s, t, Loaded(s.inflight));
    if s.inflight < s.max {
      assert Advanced(s, t, 2) == At(s, t, Checked(s.inflight));
      AtTwice(s, t, Checked(s.inflight));
      AtTwice(s.(inflight := s.inflight + 1), t, Swapped(s.inflight));
      Stepped(s, t, 2);
      Stepped(s, t, 3);
    }
  }

  lemma Stepped(s: State, t: nat, n: nat)
    ensures Advanced(s, t, n + 1) == Step(Advanced(s, t, n), Advance(t))
  {
  }

  lemma NotAdvanced(s: State, t: nat)
    ensures Advanced(s, t, 0) == s
  {
  }

  lemma AtTwice(s: State, t: nat, pc: Pc)
    ensures PcOf(At(s, t, pc), t) == pc && forall pc' :: At(At(s, t, pc), t, pc') == At(s, t, pc')
  {
  }

  /** An uncontended release gives the permit back, and calling it again does nothing. */
  lemma ReleaseAlone(s: State, t: nat)
    requires Inv(s) && PcOf(s, t).Held?
    ensures var done := Advanced(Step(s, CallRelease(t)), t, 2);
            && done == s.(inflight := s.inflight - 1, attempts := s.attempts[t := Spent], returned := s.returned + multiset{t})
            && Step(done, CallRelease(t)) == done && Advanced(done, t, 1) == done
  {
    OccupantCounts(s, t);
    var called := Step(s, CallRelease(t));
    assert Advanced(called, t, 1) == Step(called, Advance(t));
  }

  /** The counter had reached the maximum at some point up to `i`. */
  ghost predicate WasFull(states: seq<State>, i: nat)
    requires i < |states|
  {
    exists j :: 0 <= j <= i && states[j].inflight >= states[j].max
  }

  /** What an attempt knows of the counter while the maximum stands; `full` when it has reached the maximum. */
  predicate Recalls(pc: Pc, max: int, full: bool) {
    && (pc.Loaded? && pc.current >= max ==> full)
    && (pc.Checked? || pc.Swapped? ==> pc.current < max)
    && !pc.RollingBack? && !pc.RollbackLoaded?
    && (pc.Rejected? ==> full)
  }

  lemma StepRecalls(s: State, a: Action, t: nat, full: bool)
    requires !a.SetMax? && Recalls(PcOf(s, t), s.max, full)
    ensures Step(s, a).max == s.max && Recalls(PcOf(Step(s, a), t), s.max, full || s.inflight >= s.max)
  {
  }

  /** No spurious refusal: while the maximum is never changed, an attempt is rejected only if the limiter was full. */
  lemma {:induction false} RejectedOnlyWhenFull(max: int, actions: seq<Action>, states: seq<State>, i: nat, t: nat)
    requires IsRun(max, actions, states) && i <= |actions| && forall j :: 0 <= j < |actions| ==> !actions[j].SetMax?
    ensures states[i].max == Normalized(max) && Recalls(PcOf(states[i], t), states[i].max, WasFull(states, i))
    ensures PcOf(states[i], t).Rejected? ==> exists j :: 0 <= j <= i && states[j].inflight >= Normalized(max)
  {
    MaxStands(max, actions, states, i);
    if i > 0 {
      hide Step;
      RejectedOnlyWhenFull(max, actions, states, i - 1, t);
      assert states[i] == Step(states[i - 1], actions[i - 1]);
      StepRecalls(states[i - 1], actions[i - 1], t, WasFull(states, i - 1));
      FullStays(states, i);
    }
  }

  lemma {:induction false} MaxStands(max: int, actions: seq<Action>, states: seq<State>, i: nat)
    requires IsRun(max, actions, states) && i <= |actions| && forall j :: 0 <= j < |actions| ==> !actions[j].SetMax?
    ensures forall j :: 0 <= j <= i ==> states[j].max == Normalized(max)
  {
    if i > 0 {
      MaxStands(max, actions, states, i - 1);
      assert states[i] == Step(states[i - 1], actions[i - 1]);
    }
  }

  lemma FullStays(states: seq<State>, i: nat)
    requires 0 < i < |states|
    ensures WasFull(states, i - 1) ==> WasFull(states, i)
    ensures states[i - 1].inflight >= states[i - 1].max ==> WasFull(states, i)
  {
  }

  lemma {:induction false} MaxUnchanged(max: int, actions: seq<Action>, states: seq<State>, i: nat)
    requires IsRun(max, actions, states) && i <= |actions|
    requires forall j :: 0 <= j < |actions| && actions[j].SetMax? ==> Normalized(actions[j].max) <= Normalized(max)
    ensures states[i].maxEver == Normalized(max)
  {
    if i > 0 {
      MaxUnchanged(max, actions, states, i - 1);
      assert states[i] == Step(states[i - 1], actions[i - 1]);
    }
  }

  /** While the maximum is never raised, held permits never exceed it. */
  lemma HeldWithinMax(max: int, actions: seq<Action>, states: seq<State>, i: nat)
    requires IsRun(max, actions, states) && i <= |actions|
    requires forall j :: 0 <= j < |actions| && actions[j].SetMax? ==> Normalized(actions[j].max) <= Normalized(max)
    ensures |In(states[i].attempts, Holding)| <= Normalized(max)
  {
    CounterIsExact(max, actions, states, i);
    MaxUnchanged(max, actions, states, i);
  }
}
