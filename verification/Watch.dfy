/**
 Versioned watches over a notify channel that publishers close and replace, with a one-slot
 coalescing update channel to the consumer. Steps of publishers, watcher and consumer interleave
 freely. Channels are numbered: those below `channel` are closed.
 */
module Watch {

  datatype Slot = Empty | Full(version: int)

  datatype Pc =
    | Reading
    | Deciding(version: int, notify: nat)
    | Sending(version: int)   // first select of the send
    | Draining(version: int)  // slot was full: take the stale value out
    | Putting(version: int)   // second select of the send
    | Parked(notify: nat)
    | Stopped

  datatype State = State(
    version: int,
    channel: nat,
    after: int,
    last: int,
    pc: Pc,
    slot: Slot,
    received: seq<int>)

  datatype Action = Publish(version: int) | Watcher | Timer | Receive | Cancel

  function Initial(version: int, after: int): State {
    State(version, 0, after, after, Reading, Empty, [])
  }

  predicate Enabled(s: State, a: Action) {
    match a
    case Publish(version) => s.version <= version
    case Watcher =>
      match s.pc {
        case Draining(_) => s.slot.Full?
        case Putting(_) => s.slot.Empty?
        case Parked(notify) => notify < s.channel
        case Stopped => false
        case _ => true
      }
    case Timer => s.pc.Parked?
    case Receive => s.slot.Full?
    case Cancel => true
  }

  function Step(s: State, a: Action): State
    requires Enabled(s, a)
  {
    match a
    case Publish(version) => s.(version := version, channel := s.channel + 1)
    case Watcher =>
      (match s.pc
       case Reading => s.(pc := Deciding(s.version, s.channel))
       case Deciding(version, notify) =>
         if version > s.last then s.(last := version, pc := Sending(version)) else s.(pc := Parked(notify))
       case Sending(version) =>
         if s.slot.Empty? then s.(slot := Full(version), pc := Reading) else s.(pc := Draining(version))
       case Draining(version) => s.(slot := Empty, pc := Putting(version))
       case Putting(version) => s.(slot := Full(version), pc := Reading)
       case Parked(_) => s.(pc := Reading)
       case Stopped => s)
    case Timer => s.(pc := Reading)
    case Receive => s.(received := s.received + [s.slot.version], slot := Empty)
    case Cancel => s.(pc := Stopped)
  }

  ghost predicate IsRun(actions: seq<Action>, states: seq<State>) {
    && |states| == |actions| + 1
    && (exists version, after :: states[0] == Initial(version, after))
    && forall i :: 0 <= i < |actions| ==> Enabled(states[i], actions[i]) && states[i + 1] == Step(states[i], actions[i])
  }

  /** The version in flight inside a send, if any. */
  predicate InFlight(pc: Pc) {
    pc.Sending? || pc.Draining? || pc.Putting?
  }

  predicate Increasing(s: seq<int>, above: int) {
    && (forall i :: 0 <= i < |s| ==> above < s[i])
    && (forall i, j :: 0 <= i < j < |s| ==> s[i] < s[j])
  }

  /** Everything handed to the consumer so far, received or still in the slot. */
  function Delivered(s: State): seq<int> {
    if s.slot.Full? then s.received + [s.slot.version] else s.received
  }

  /** What the watcher knows about the version it last read. */
  predicate Informed(s: State) {
    && s.after <= s.last && (s.last > s.after ==> s.last <= s.version)
    && (InFlight(s.pc) ==> s.pc.version == s.last > s.after)
    && (s.pc.Putting? ==> s.slot.Empty?)
    && (match s.pc
        case Deciding(version, notify) =>
          version <= s.version && notify <= s.channel && (notify == s.channel ==> version == s.version)
        case Parked(notify) => notify <= s.channel && (notify == s.channel ==> s.version <= s.last)
        case _ => true)
  }

  /** How what was delivered relates to the last version read: below it in a send, up to it otherwise. */
  predicate UpTo(delivered: seq<int>, after: int, last: int, sending: bool, stopped: bool) {
    && Increasing(delivered, after)
    && (forall i :: 0 <= i < |delivered| ==> delivered[i] <= last)
    && (sending ==> forall i :: 0 <= i < |delivered| ==> delivered[i] < last)
    && (!sending && !stopped && last > after ==> delivered != [] && delivered[|delivered| - 1] == last)
  }

  predicate Inv(s: State) {
    Informed(s) && UpTo(Delivered(s), s.after, s.last, InFlight(s.pc), s.pc.Stopped?)
  }

  lemma StepKeepsInv(s: State, a: Action)
    requires Inv(s) && Enabled(s, a)
    ensures Inv(Step(s, a))
  {
    hide UpTo;
    var t, d := Step(s, a), Delivered(s);
    assert Informed(t);
    SendStarts(d, s.after, s.last, t.last, InFlight(s.pc), s.pc.Stopped?);
    if a.Receive? {
      assert Delivered(t) == d;
    } else if a.Watcher? && s.pc.Draining? {
      assert Delivered(t) == d[..|d| - 1];
      Dropped(d, s.after, s.last);
    } else if a.Watcher? && t.pc.Reading? && InFlight(s.pc) {
      assert Delivered(t) == d + [s.last];
      Appended(d, s.after, s.last);
    } else {
      assert Delivered(t) == d;
    }
  }

  lemma SendStarts(d: seq<int>, after: int, last: int, next: int, sending: bool, stopped: bool)
    requires UpTo(d, after, last, sending, stopped)
    ensures next > last ==> UpTo(d, after, next, true, false)
    ensures UpTo(d, after, last, sending, true)
    ensures !sending && !stopped ==> UpTo(d, after, last, false, false)
    ensures sending ==> UpTo(d, after, last, false, true)
  {
  }

  lemma Dropped(d: seq<int>, after: int, last: int)
    requires UpTo(d, after, last, true, false) && d != []
    ensures UpTo(d[..|d| - 1], after, last, true, false)
  {
  }

  lemma Appended(d: seq<int>, after: int, last: int)
    requires UpTo(d, after, last, true, false) && after < last
    ensures UpTo(d + [last], after, last, false, false)
  {
  }

  lemma {:induction false} RunKeepsInv(actions: seq<Action>, states: seq<State>, i: nat)
    requires IsRun(actions, states) && i <= |actions|
    ensures Inv(states[i])
  {
    if i > 0 {
      RunKeepsInv(actions, states, i - 1);
      StepKeepsInv(states[i - 1], actions[i - 1]);
    }
  }

  /**
   No lost wake-up, in every interleaving: a watcher parked on a channel nobody has closed has
   seen the current version, and if that version is news to the consumer it is the last value
   delivered: received already, or waiting in the slot.
   */
  lemma NoLostWakeup(actions: seq<Action>, states: seq<State>, i: nat)
    requires IsRun(actions, states) && i <= |actions|
    requires states[i].pc.Parked? && states[i].pc.notify >= states[i].channel
    ensures var s := states[i];
            && s.version <= s.last
            && (s.version > s.after ==> Delivered(s) != [] && Delivered(s)[|Delivered(s)| - 1] == s.version)
  {
    RunKeepsInv(actions, states, i);
  }

  /** However values are coalesced, the consumer receives strictly increasing versions, all news to it. */
  lemma ReceivedIncreases(actions: seq<Action>, states: seq<State>, i: nat)
    requires IsRun(actions, states) && i <= |actions|
    ensures Increasing(states[i].received, states[i].after)
  {
    RunKeepsInv(actions, states, i);
    var s := states[i];
    assert forall n :: 0 <= n < |s.received| ==> s.received[n] == Delivered(s)[n];
  }
}
