/**
 The health manager: endpoint health by score key, per-service state machine configs applied while
 running, and the revisions that tag each service's health view for its watchers.
 */
module HealthManagers {
  import opened Status
  import opened StateMachine
  import opened SlowScore

  type Table = map<string, Health>

  function HealthKey(h: Health): string {
    ScoreKey(h.service, h.instanceId)
  }

  /** No slash after the first character. */
  predicate SlashFree(service: string) {
    forall i :: 0 < i < |service| ==> service[i] != '/'
  }

  /** Joining with a slash loses nothing while service names hold no slash. */
  lemma ScoreKeyInjective(service: string, instanceId: string, service': string, instanceId': string)
    requires SlashFree(service) && SlashFree(service') && service != "" && service' != ""
    requires ScoreKey(service, instanceId) == ScoreKey(service', instanceId')
    ensures service == service' && instanceId == instanceId'
  {
    var key := ScoreKey(service, instanceId);
    var n, n' := |service|, |service'|;
    assert key[n] == '/' && key[n'] == '/';
    assert forall i :: 0 <= i < n ==> key[i] == service[i];
    assert forall i :: 0 <= i < n' ==> key[i] == service'[i];
    assert n == n';
    assert key[..n] == service && key[..n] == service';
    assert key[n + 1..] == instanceId && key[n + 1..] == instanceId';
  }

  ghost predicate Keyed(health: Table) {
    forall key :: key in health ==>
      && key == HealthKey(health[key])
      && health[key].service != "" && health[key].instanceId != "" && SlashFree(health[key].service)
  }

  // ---------------------------------------------------------------- views and their tags

  function Timeless(h: Health): Health {
    h.(updatedAt := 0)
  }

  /** The record is in the health view of `service`; the empty name asks for every service. */
  predicate InView(health: Table, key: string, service: string) {
    key in health && (service == "" || health[key].service == service)
  }

  /** What a reader of `service` sees is the same, apart from update times. */
  ghost predicate SameView(health: Table, health': Table, service: string) {
    forall key ::
      && (InView(health, key, service) <==> InView(health', key, service))
      && (InView(health, key, service) ==> Timeless(health[key]) == Timeless(health'[key]))
  }

  /** What the manager publishes: the records and their revisions. */
  datatype Board = Board(health: Table, revision: nat, revisions: map<string, nat>)

  function Version(b: Board, service: string): nat {
    if service == "" then b.revision else if service in b.revisions then b.revisions[service] else 0
  }

  /** No service revision exceeds the global one. */
  ghost predicate Fits(b: Board) {
    forall service :: service in b.revisions ==> b.revisions[service] <= b.revision
  }

  ghost predicate ValidBoard(b: Board) {
    Keyed(b.health) && Fits(b)
  }

  function Bumped(b: Board, changed: set<string>): Board {
    if changed == {} then b
    else b.(revision := b.revision + 1, revisions := Retagged(b.revisions, changed, b.revision + 1))
  }

  function Retagged(revisions: map<string, nat>, services: set<string>, revision: nat): map<string, nat> {
    revisions + map s | s in services :: revision
  }

  lemma TagNone(revisions: map<string, nat>, revision: nat)
    ensures Retagged(revisions, {}, revision) == revisions
  {
  }

  lemma TagMore(revisions: map<string, nat>, services: set<string>, s: string, revision: nat)
    ensures Retagged(revisions, services, revision)[s := revision] == Retagged(revisions, services + {s}, revision)
  {
  }

  /** Bumping moves the marked services and the global view to one new revision, and no other service. */
  lemma BumpIsPrecise(b: Board, changed: set<string>, service: string)
    requires Fits(b) && "" !in changed
    ensures var b' := Bumped(b, changed);
            && (service in changed || (service == "" && changed != {})
                ==> Version(b, service) < Version(b', service) == b.revision + 1)
            && (service !in changed && (service != "" || changed == {}) ==> Version(b', service) == Version(b, service))
  {
  }

  /** Versions never go back, and an unchanged version means an unchanged view. */
  ghost predicate Advances(b: Board, b': Board) {
    && ValidBoard(b')
    && forall service :: Version(b, service) <= Version(b', service)
         && (Version(b, service) == Version(b', service) ==> SameView(b.health, b'.health, service))
  }

  lemma AdvancesTransitive(a: Board, b: Board, c: Board)
    requires Advances(a, b) && Advances(b, c)
    ensures Advances(a, c)
  {
    forall service
      ensures Version(a, service) <= Version(c, service)
      ensures Version(a, service) == Version(c, service) ==> SameView(a.health, c.health, service)
    {
      assert Version(a, service) <= Version(b, service) <= Version(c, service);
      if Version(a, service) == Version(c, service) {
        assert SameView(a.health, b.health, service) && SameView(b.health, c.health, service);
        ViewsTransitive(a.health, b.health, c.health, service);
      }
    }
  }

  lemma ViewsTransitive(a: Table, b: Table, c: Table, service: string)
    requires SameView(a, b, service) && SameView(b, c, service)
    ensures SameView(a, c, service)
  {
    hide InView, Timeless;
    forall key
      ensures InView(a, key, service) <==> InView(c, key, service)
      ensures InView(a, key, service) ==> key in a && key in c && Timeless(a[key]) == Timeless(c[key])
    {
      assert InView(a, key, service) <==> InView(b, key, service);
      ViewedKeys(a, b, c, key, service);
    }
  }

  lemma ViewedKeys(a: Table, b: Table, c: Table, key: string, service: string)
    requires InView(a, key, service) ==> InView(b, key, service)
    requires InView(b, key, service) ==> InView(c, key, service)
    requires InView(a, key, service) && key in a && key in b ==> Timeless(a[key]) == Timeless(b[key])
    requires InView(b, key, service) && key in b && key in c ==> Timeless(b[key]) == Timeless(c[key])
    ensures InView(a, key, service) ==> key in a && key in c && Timeless(a[key]) == Timeless(c[key])
  {
  }

  /** Only the views of `changed` services differ. */
  ghost predicate Confined(health: Table, health': Table, changed: set<string>) {
    forall service :: service != "" && service !in changed ==> SameView(health, health', service)
  }

  lemma WholeViewSame(health: Table, health': Table)
    requires Keyed(health) && Keyed(health') && Confined(health, health', {})
    ensures SameView(health, health', "")
  {
    forall key
      ensures InView(health, key, "") <==> InView(health', key, "")
      ensures InView(health, key, "") ==> Timeless(health[key]) == Timeless(health'[key])
    {
      if key in health {
        assert SameView(health, health', health[key].service);
        assert InView(health, key, health[key].service);
      }
      if key in health' {
        assert SameView(health, health', health'[key].service);
        assert InView(health', key, health'[key].service);
      }
    }
  }

  /** Bumping every service whose view may differ keeps the tags sound. */
  lemma BumpIsSound(b: Board, health': Table, changed: set<string>)
    requires ValidBoard(b) && Keyed(health') && Confined(b.health, health', changed)
    ensures Advances(b, Bumped(b.(health := health'), changed))
  {
    hide SameView, Keyed;
    if changed == {} {
      WholeViewSame(b.health, health');
    }
  }

  // ---------------------------------------------------------------- folding reports and snapshots

  /** The records so far, and the services whose view may have changed. */
  datatype Progress = Progress(health: Table, changed: set<string>)

  ghost predicate SoundProgress(health: Table, p: Progress) {
    Keyed(p.health) && Confined(health, p.health, p.changed)
  }

  /** Storing one record keeps the progress sound when its service is marked unless the record only got newer. */
  lemma StoreIsSound(health: Table, p: Progress, h: Health, marks: bool)
    requires SoundProgress(health, p)
    requires h.service != "" && h.instanceId != "" && SlashFree(h.service)
    requires !marks ==> HealthKey(h) in p.health && Timeless(p.health[HealthKey(h)]) == Timeless(h)
    ensures SoundProgress(health, Progress(p.health[HealthKey(h) := h], if marks then p.changed + {h.service} else p.changed))
  {
    var changed := if marks then p.changed + {h.service} else p.changed;
    var health' := p.health[HealthKey(h) := h];
    forall service | service != "" && service !in changed
      ensures SameView(health, health', service)
    {
      assert SameView(health, p.health, service);
      if HealthKey(h) in p.health {
        var was := p.health[HealthKey(h)];
        ScoreKeyInjective(was.service, was.instanceId, h.service, h.instanceId);
      }
      assert SameView(p.health, health', service);
      ViewsTransitive(health, p.health, health', service);
    }
  }

  /** The share of the requests that did not fail; 1 without requests, and never negative. */
  function SuccessRate(s: Sample): (r: real)
    ensures s.requests <= 0 ==> r == 1.0
    ensures s.requests > 0 && s.errors <= s.requests ==> r * s.requests as real == (s.requests - s.errors) as real
    ensures s.requests > 0 && s.errors > s.requests ==> r == 0.0
  {
    if s.requests <= 0 then 1.0
    else (if s.requests - s.errors < 0 then 0 else s.requests - s.errors) as real / s.requests as real
  }

  predicate AddressChanged(h: Health, address: string) {
    address != "" && h.address != "" && h.address != address
  }

  predicate EpochChanged(h: Health, epoch: string) {
    epoch != "" && h.epoch != "" && h.epoch != epoch
  }

  /** The record a sample speaks about: a fresh one for a new endpoint or a new owner. */
  function OwnerOf(health: Table, s: Sample): Health {
    var key := ScoreKey(s.service, s.instanceId);
    var h := if key !in health || health[key].service == ""
                || AddressChanged(health[key], s.address) || EpochChanged(health[key], s.epoch)
      then NewHealth(s.service, s.instanceId, s.address, s.epoch) else health[key];
    h.(address := if s.address != "" then s.address else h.address, epoch := if s.epoch != "" then s.epoch else h.epoch)
  }

  function Configured(base: Config, overrides: map<string, Config>, service: string): (c: Config)
    ensures Usable(c)
  {
    Resolve(base, if service in overrides then overrides[service] else Config(0.0, 0.0, 0, 0, 0.0, 0.0))
  }

  datatype Clock = Clock(now: int, wall: int)

  function Reported(p: Progress, base: Config, overrides: map<string, Config>, t: Clock, scores: map<string, Score>, s: Sample)
    : Progress
  {
    if s.service == "" || s.instanceId == "" then p
    else
      var key := ScoreKey(s.service, s.instanceId);
      var owner := OwnerOf(p.health, s);
      var score := if key in scores then scores[key].total else 0.0;
      var h := Applied(Configured(base, overrides, owner.service), owner, Input(t.now, t.wall, score, SuccessRate(s)));
      if key !in p.health || Timeless(p.health[key]) != Timeless(h)
      then Progress(p.health[key := h.(updatedAt := t.now)], p.changed + {s.service})
      else Progress(p.health[key := h], p.changed)
  }

  function ReportedAll(p: Progress, base: Config, overrides: map<string, Config>, t: Clock, scores: map<string, Score>,
                       samples: seq<Sample>): Progress
  {
    if samples == [] then p
    else
      var n := |samples| - 1;
      Reported(ReportedAll(p, base, overrides, t, scores, samples[..n]), base, overrides, t, scores, samples[n])
  }

  lemma AppliedKeepsIdentity(cfg: Config, h: Health, input: Input)
    ensures var h' := Applied(cfg, h, input);
            h'.service == h.service && h'.instanceId == h.instanceId && h'.updatedAt == h.updatedAt
  {
  }

  /** What the state machine works on: a record without its address, epoch and update time. */
  function Core(h: Health): Health {
    h.(address := "", epoch := "", updatedAt := 0)
  }

  /** A sample is one window of its endpoint's state machine, after a fresh start when the owner is new. */
  lemma ReportIsWindow(p: Progress, base: Config, overrides: map<string, Config>, t: Clock,
                       scores: map<string, Score>, s: Sample)
    requires Keyed(p.health) && SlashFree(s.service) && s.service != "" && s.instanceId != ""
    ensures var key := ScoreKey(s.service, s.instanceId);
            var p' := Reported(p, base, overrides, t, scores, s);
            var same := key in p.health && (s.address == "" || p.health[key].address in {"", s.address})
                                        && (s.epoch == "" || p.health[key].epoch in {"", s.epoch});
            var start := Node(Configured(base, overrides, s.service),
                              if same then Core(p.health[key]) else NewHealth(s.service, s.instanceId, "", ""));
            var score := if key in scores then scores[key].total else 0.0;
            && key in p'.health
            && Node(start.cfg, Core(p'.health[key])) == Next(start, Window(Input(t.now, t.wall, score, SuccessRate(s))))
  {
    hide Configured;
    var key := ScoreKey(s.service, s.instanceId);
    if key in p.health {
      ScoreKeyInjective(p.health[key].service, p.health[key].instanceId, s.service, s.instanceId);
    }
    var owner := OwnerOf(p.health, s);
    var score := if key in scores then scores[key].total else 0.0;
    CoreWindow(Configured(base, overrides, s.service), owner, Input(t.now, t.wall, score, SuccessRate(s)));
  }

  /**
   Who a reported record belongs to afterwards, when it was updated, and that no other record is touched:
   a sample of a new owner starts from nothing, and the record is stamped and its service marked exactly
   when it changed.
   */
  lemma ReportedRecord(p: Progress, base: Config, overrides: map<string, Config>, t: Clock,
                       scores: map<string, Score>, s: Sample)
    requires Keyed(p.health) && SlashFree(s.service) && s.service != "" && s.instanceId != ""
    ensures var key := s.service + "/" + s.instanceId;
            var p' := Reported(p, base, overrides, t, scores, s);
            var same := key in p.health && (s.address == "" || p.health[key].address in {"", s.address})
                                        && (s.epoch == "" || p.health[key].epoch in {"", s.epoch});
            && key in p'.health && p'.health.Keys == p.health.Keys + {key}
            && (forall k :: k in p.health && k != key ==> p'.health[k] == p.health[k])
            && var h' := p'.health[key];
               var quiet := key in p.health && Timeless(h') == Timeless(p.health[key]);
               && h'.service == s.service && h'.instanceId == s.instanceId
               && h'.address == (if s.address != "" then s.address else if same then p.health[key].address else "")
               && h'.epoch == (if s.epoch != "" then s.epoch else if same then p.health[key].epoch else "")
               && p'.changed == (if quiet then p.changed else p.changed + {s.service})
               && (!quiet ==> h'.updatedAt == t.now)
  {
    hide Configured, Applied, SuccessRate;
    var key := ScoreKey(s.service, s.instanceId);
    if key in p.health {
      ScoreKeyInjective(p.health[key].service, p.health[key].instanceId, s.service, s.instanceId);
    }
    var owner := OwnerOf(p.health, s);
    var score := if key in scores then scores[key].total else 0.0;
    AppliedKeepsOwner(Configured(base, overrides, owner.service), owner, Input(t.now, t.wall, score, SuccessRate(s)));
  }

  lemma AppliedKeepsOwner(cfg: Config, h: Health, input: Input)
    ensures var h' := Applied(cfg, h, input);
            && h'.service == h.service && h'.instanceId == h.instanceId && h'.updatedAt == h.updatedAt
            && h'.address == h.address && h'.epoch == h.epoch
  {
  }

  /** The machine neither reads nor writes what `Core` leaves out. */
  lemma CoreWindow(cfg: Config, h: Health, input: Input)
    ensures Core(Applied(cfg, h, input)) == Applied(cfg, Core(h), input)
  {
  }

  lemma ReportIsSound(health: Table, p: Progress, base: Config, overrides: map<string, Config>, t: Clock,
                      scores: map<string, Score>, s: Sample)
    requires SoundProgress(health, p) && SlashFree(s.service)
    ensures SoundProgress(health, Reported(p, base, overrides, t, scores, s))
  {
    hide Applied, SoundProgress, Configured;
    if s.service != "" && s.instanceId != "" {
      var key, owner := ScoreKey(s.service, s.instanceId), OwnerOf(p.health, s);
      var input := Input(t.now, t.wall, if key in scores then scores[key].total else 0.0, SuccessRate(s));
      var h := Applied(Configured(base, overrides, owner.service), owner, input);
      AppliedKeepsIdentity(Configured(base, overrides, owner.service), owner, input);
      OwnerIsSample(health, p, s);
      if key !in p.health || Timeless(p.health[key]) != Timeless(h) {
        StoreIsSound(health, p, h.(updatedAt := t.now), true);
      } else {
        StoreIsSound(health, p, h, false);
      }
    }
  }

  lemma OwnerIsSample(health: Table, p: Progress, s: Sample)
    requires SoundProgress(health, p) && SlashFree(s.service) && s.service != "" && s.instanceId != ""
    ensures OwnerOf(p.health, s).service == s.service && OwnerOf(p.health, s).instanceId == s.instanceId
  {
    var key := ScoreKey(s.service, s.instanceId);
    if key in p.health {
      ScoreKeyInjective(p.health[key].service, p.health[key].instanceId, s.service, s.instanceId);
    }
  }

  lemma {:induction false} ReportsAreSound(health: Table, base: Config, overrides: map<string, Config>, t: Clock,
                                           scores: map<string, Score>, samples: seq<Sample>)
    requires Keyed(health) && forall s :: s in samples ==> SlashFree(s.service)
    ensures SoundProgress(health, ReportedAll(Progress(health, {}), base, overrides, t, scores, samples))
  {
    hide Reported, Keyed;
    if samples != [] {
      var n := |samples| - 1;
      ReportsAreSound(health, base, overrides, t, scores, samples[..n]);
      ReportIsSound(health, ReportedAll(Progress(health, {}), base, overrides, t, scores, samples[..n]),
                    base, overrides, t, scores, samples[n]);
    }
  }

  // ---------------------------------------------------------------- merging snapshots

  function Stamped(h: Health, now: int): (s: Health)
    ensures s.state != Unspecified && (h.state != Unspecified ==> s.state == h.state)
  {
    h.(state := Normalized(h.state), updatedAt := if h.updatedAt == 0 then now else h.updatedAt)
  }

  function StampedAll(snapshot: seq<Health>, now: int): seq<Health> {
    seq(|snapshot|, i requires 0 <= i < |snapshot| => Stamped(snapshot[i], now))
  }

  function Merged(p: Progress, h: Health): Progress {
    if h.service == "" || h.instanceId == "" then p
    else
      var key := HealthKey(h);
      if key in p.health && p.health[key].updatedAt > h.updatedAt then p
      else if key in p.health && Timeless(p.health[key]) == Timeless(h) then
        if h.updatedAt > p.health[key].updatedAt
        then p.(health := p.health[key := p.health[key].(updatedAt := h.updatedAt)]) else p
      else Progress(p.health[key := h], p.changed + {h.service})
  }

  function MergedAll(p: Progress, snapshot: seq<Health>): Progress {
    if snapshot == [] then p else Merged(MergedAll(p, snapshot[..|snapshot| - 1]), snapshot[|snapshot| - 1])
  }

  lemma MergeIsSound(health: Table, p: Progress, h: Health)
    requires SoundProgress(health, p) && SlashFree(h.service)
    ensures SoundProgress(health, Merged(p, h))
  {
    hide SoundProgress;
    if h.service != "" && h.instanceId != "" {
      if HealthKey(h) in p.health && Timeless(p.health[HealthKey(h)]) == Timeless(h) {
        assert p.health[HealthKey(h)].(updatedAt := h.updatedAt) == Timeless(h).(updatedAt := h.updatedAt) == h;
        StoreIsSound(health, p, h, false);
      } else {
        StoreIsSound(health, p, h, true);
      }
    }
  }

  lemma {:induction false} MergesAreSound(health: Table, snapshot: seq<Health>)
    requires Keyed(health) && forall h :: h in snapshot ==> SlashFree(h.service)
    ensures SoundProgress(health, MergedAll(Progress(health, {}), snapshot))
  {
    hide Merged, Keyed;
    if snapshot != [] {
      var n := |snapshot| - 1;
      MergesAreSound(health, snapshot[..n]);
      MergeIsSound(health, MergedAll(Progress(health, {}), snapshot[..n]), snapshot[n]);
    }
  }

  /** `h` is offered for `key`: already held, or in the snapshot. */
  ghost predicate Offered(health: Table, snapshot: seq<Health>, key: string, h: Health) {
    || (key in health && health[key] == h)
    || (h in snapshot && h.service != "" && h.instanceId != "" && HealthKey(h) == key)
  }

  /** Newest wins: a merge ends with an offered record that no offered record is newer than, wherever one is offered. */
  lemma {:induction false} NewestWins(p: Progress, snapshot: seq<Health>, key: string)
    ensures var r := MergedAll(p, snapshot).health;
            && (key in r <==> exists h :: Offered(p.health, snapshot, key, h))
            && (key in r ==> Offered(p.health, snapshot, key, r[key]))
            && (forall h :: Offered(p.health, snapshot, key, h) ==> key in r && h.updatedAt <= r[key].updatedAt)
  {
    if snapshot == [] {
      if key in p.health {
        assert Offered(p.health, snapshot, key, p.health[key]);
      }
    } else {
      var n := |snapshot| - 1;
      var s, h := snapshot[..n], snapshot[n];
      NewestWins(p, s, key);
      var q := MergedAll(p, s);
      MergedAt(q, h, key);
      OfferedLast(p.health, snapshot, key);
      var r := Merged(q, h).health;
      if key in r {
        assert Offered(p.health, snapshot, key, r[key]);
      }
    }
  }

  lemma OfferedLast(health: Table, snapshot: seq<Health>, key: string)
    requires snapshot != []
    ensures var n := |snapshot| - 1;
            forall h :: Offered(health, snapshot, key, h) <==>
              || Offered(health, snapshot[..n], key, h)
              || (h == snapshot[n] && h.service != "" && h.instanceId != "" && HealthKey(h) == key)
  {
    assert snapshot == snapshot[..|snapshot| - 1] + [snapshot[|snapshot| - 1]];
  }

  /** Merging one record: it replaces what is held for its key unless that is strictly newer. */
  lemma MergedAt(p: Progress, h: Health, key: string)
    ensures var r := Merged(p, h).health;
            var ours := h.service != "" && h.instanceId != "" && HealthKey(h) == key;
            var wins := ours && (key in p.health ==> p.health[key].updatedAt <= h.updatedAt);
            && (key in r <==> key in p.health || ours)
            && (key in r ==> r[key] == if wins then h else p.health[key])
  {
    if HealthKey(h) in p.health && Timeless(p.health[HealthKey(h)]) == Timeless(h) {
      assert p.health[HealthKey(h)].(updatedAt := h.updatedAt) == Timeless(h).(updatedAt := h.updatedAt) == h;
    }
  }

  /** Records for one key carry different timestamps unless they are the same record. */
  ghost predicate DistinctTimes(health: Table, snapshot: seq<Health>) {
    forall key, h, h' :: Offered(health, snapshot, key, h) && Offered(health, snapshot, key, h') && h.updatedAt == h'.updatedAt
      ==> h == h'
  }

  /** With distinct timestamps the order in which records arrive, and repeats, do not matter. */
  lemma MergeIgnoresOrder(p: Progress, a: seq<Health>, b: seq<Health>)
    requires DistinctTimes(p.health, a) && forall h :: h in a <==> h in b
    ensures MergedAll(p, a).health == MergedAll(p, b).health
  {
    var r, r' := MergedAll(p, a).health, MergedAll(p, b).health;
    forall key
      ensures key in r <==> key in r'
      ensures key in r ==> r[key] == r'[key]
    {
      NewestWins(p, a, key);
      NewestWins(p, b, key);
      assert forall h :: Offered(p.health, a, key, h) <==> Offered(p.health, b, key, h);
    }
  }

  predicate Named(h: Health) {
    h.service != "" && h.instanceId != ""
  }

  /** The table holds something newer than `h`, or `h` itself. */
  predicate Settled(r: Table, h: Health) {
    HealthKey(h) in r && (h.updatedAt < r[HealthKey(h)].updatedAt || h == r[HealthKey(h)])
  }

  /** The same endpoints in the same condition, none of them older. */
  ghost predicate OnlyNewer(a: Table, b: Table) {
    && a.Keys == b.Keys
    && forall key :: key in a ==> Timeless(a[key]) == Timeless(b[key]) && a[key].updatedAt <= b[key].updatedAt
  }

  lemma {:induction false} QuietMerge(r: Table, snapshot: seq<Health>)
    requires MergedAll(Progress(r, {}), snapshot).changed == {}
    ensures OnlyNewer(r, MergedAll(Progress(r, {}), snapshot).health)
  {
    if snapshot != [] {
      QuietMerge(r, snapshot[..|snapshot| - 1]);
    }
  }

  lemma SameTimes(a: Table, b: Table)
    requires OnlyNewer(a, b) && OnlyNewer(b, a)
    ensures a == b
  {
    forall key | key in a
      ensures a[key] == b[key]
    {
      assert a[key] == Timeless(a[key]).(updatedAt := a[key].updatedAt);
      assert b[key] == Timeless(b[key]).(updatedAt := b[key].updatedAt);
    }
  }

  lemma OneQuietMerge(p: Progress, h: Health)
    requires Merged(p, h).changed == {}
    ensures p.changed == {} && OnlyNewer(p.health, Merged(p, h).health)
    ensures Merged(p, h) == p ==> !Named(h) || Settled(p.health, h)
  {
    if Named(h) && HealthKey(h) in p.health && Timeless(p.health[HealthKey(h)]) == Timeless(h) {
      assert p.health[HealthKey(h)] == Timeless(h).(updatedAt := p.health[HealthKey(h)].updatedAt);
      assert h == Timeless(h).(updatedAt := h.updatedAt);
    }
  }

  lemma SettledStays(p: Progress, h: Health)
    requires !Named(h) || Settled(p.health, h)
    ensures Merged(p, h) == p
  {
  }

  /** Merging changes nothing and marks no service exactly when the table already settles every named record. */
  lemma {:induction false} NothingToMerge(r: Table, snapshot: seq<Health>)
    ensures MergedAll(Progress(r, {}), snapshot) == Progress(r, {})
        <==> forall h :: h in snapshot && Named(h) ==> Settled(r, h)
  {
    if snapshot != [] {
      hide Timeless, HealthKey;
      var n := |snapshot| - 1;
      var p, last := MergedAll(Progress(r, {}), snapshot[..n]), snapshot[n];
      NothingToMerge(r, snapshot[..n]);
      assert forall h :: h in snapshot <==> h in snapshot[..n] || h == last;
      if Merged(p, last) == Progress(r, {}) {
        OneQuietMerge(p, last);
        QuietMerge(r, snapshot[..n]);
        SameTimes(r, p.health);
      }
      if forall h :: h in snapshot && Named(h) ==> Settled(r, h) {
        SettledStays(p, last);
      }
    }
  }

  /** A record offered for the key of `h` that is newer than `h`, or `h` itself. */
  ghost predicate Overtaken(health: Table, snapshot: seq<Health>, h: Health) {
    exists o :: Offered(health, snapshot, HealthKey(h), o) && (o.updatedAt > h.updatedAt || o == h)
  }

  lemma OvertakenIsSettled(health: Table, snapshot: seq<Health>, h: Health)
    requires DistinctTimes(health, snapshot)
    ensures Settled(MergedAll(Progress(health, {}), snapshot).health, h) <==> Overtaken(health, snapshot, h)
  {
    hide MergedAll;
    NewestWins(Progress(health, {}), snapshot, HealthKey(h));
    var r := MergedAll(Progress(health, {}), snapshot).health;
    if Overtaken(health, snapshot, h) {
      var o :| Offered(health, snapshot, HealthKey(h), o) && (o.updatedAt > h.updatedAt || o == h);
      assert o.updatedAt <= r[HealthKey(h)].updatedAt;
    }
  }

  /**
   Merging a snapshot at time `first` and again at time `second` changes nothing the second time, and
   marks no service, exactly when each record that carries no time of its own, and so is stamped
   afresh, is overtaken by something newer than `second`.
   */
  lemma MergeIsIdempotent(health: Table, snapshot: seq<Health>, first: int, second: int)
    requires DistinctTimes(health, StampedAll(snapshot, first))
    ensures var r := MergedAll(Progress(health, {}), StampedAll(snapshot, first)).health;
            MergedAll(Progress(r, {}), StampedAll(snapshot, second)) == Progress(r, {})
            <==> forall h :: h in snapshot && Named(h) && h.updatedAt == 0
                   ==> Overtaken(health, StampedAll(snapshot, first), Stamped(h, second))
  {
    hide MergedAll, Overtaken, DistinctTimes, Settled, HealthKey;
    var a, b := StampedAll(snapshot, first), StampedAll(snapshot, second);
    var r := MergedAll(Progress(health, {}), a).health;
    NothingToMerge(r, b);
    forall i | 0 <= i < |snapshot|
      ensures b[i] in b && b[i] == Stamped(snapshot[i], second)
      ensures Settled(r, b[i]) <==> Overtaken(health, a, b[i])
      ensures Named(b[i]) && snapshot[i].updatedAt != 0 ==> Overtaken(health, a, b[i])
    {
      OvertakenIsSettled(health, a, b[i]);
      if Named(b[i]) && snapshot[i].updatedAt != 0 {
        assert a[i] == b[i];
        TimedIsOvertaken(health, a, b[i]);
      }
    }
  }

  lemma TimedIsOvertaken(health: Table, snapshot: seq<Health>, h: Health)
    requires h in snapshot && Named(h)
    ensures Overtaken(health, snapshot, h)
  {
    assert Offered(health, snapshot, HealthKey(h), h);
  }

  /** A snapshot whose records all carry a time can be merged again at any time. */
  lemma TimedMergeIsIdempotent(health: Table, snapshot: seq<Health>, first: int, second: int)
    requires DistinctTimes(health, StampedAll(snapshot, first)) && forall h :: h in snapshot ==> h.updatedAt != 0
    ensures var r := MergedAll(Progress(health, {}), StampedAll(snapshot, first)).health;
            MergedAll(Progress(r, {}), StampedAll(snapshot, second)) == Progress(r, {})
  {
    MergeIsIdempotent(health, snapshot, first, second);
  }

  /**
   A record without a time wins over whatever the table holds that is not newer than the merge itself:
   an ejected endpoint is back to what the record says, and a later merge of it moves its time again.
   */
  lemma UntimedRecordWins(p: Progress, h: Health, now: int)
    requires Named(h) && h.updatedAt == 0
    requires HealthKey(h) in p.health ==> p.health[HealthKey(h)].updatedAt <= now
    ensures Merged(p, Stamped(h, now)).health == p.health[HealthKey(h) := Stamped(h, now)]
    ensures Stamped(h, now).updatedAt == now
  {
    MergedAt(p, Stamped(h, now), HealthKey(h));
    if HealthKey(h) in p.health && Timeless(p.health[HealthKey(h)]) == Timeless(Stamped(h, now)) {
      assert Timeless(Stamped(h, now)).(updatedAt := now) == Stamped(h, now);
    }
  }

  /** So merging a lone untimed record again changes the table, and revives an ejected endpoint. */
  lemma UntimedMergeIsNotIdempotent(h: Health, first: int, second: int, ejected: Health)
    requires Named(h) && h.updatedAt == 0 && h.state == Healthy && first < second
    requires HealthKey(ejected) == HealthKey(h) && ejected.state == Ejected && ejected.updatedAt <= second
    ensures var r := MergedAll(Progress(map[], {}), StampedAll([h], first)).health;
            MergedAll(Progress(r, {}), StampedAll([h], second)) != Progress(r, {})
    ensures MergedAll(Progress(map[HealthKey(h) := ejected], {}), StampedAll([h], second)).health[HealthKey(h)].state == Healthy
  {
    OneMerge(Progress(map[], {}), h, first);
    UntimedRecordWins(Progress(map[], {}), h, first);
    var r := MergedAll(Progress(map[], {}), StampedAll([h], first)).health;
    OneMerge(Progress(r, {}), h, second);
    UntimedRecordWins(Progress(r, {}), h, second);
    OneMerge(Progress(map[HealthKey(h) := ejected], {}), h, second);
    UntimedRecordWins(Progress(map[HealthKey(h) := ejected], {}), h, second);
  }

  lemma OneMerge(p: Progress, h: Health, now: int)
    ensures MergedAll(p, StampedAll([h], now)) == Merged(p, Stamped(h, now))
  {
    assert StampedAll([h], now)[..0] == [];
  }

  // ---------------------------------------------------------------- configs, ticks and pruning

  /** Counters of the given services go back to zero; `clock` is the time read when a service is reset. */
  function ResetCounters(health: Table, services: set<string>, clock: string -> int): Table {
    map key | key in health :: ResetRecord(health[key], services, clock)
  }

  function ResetRecord(h: Health, services: set<string>, clock: string -> int): Health {
    if h.service in services && (h.slowWindows != 0 || h.ejectWindows != 0)
    then h.(slowWindows := 0, ejectWindows := 0, updatedAt := clock(h.service)) else h
  }

  lemma ResetIsSound(health: Table, services: set<string>, clock: string -> int)
    requires Keyed(health)
    ensures SoundProgress(health, Progress(ResetCounters(health, services, clock), services))
  {
  }

  /** The services whose effective config differs under the new overrides. */
  function Reconfigures(base: Config, old_: map<string, Config>, new_: map<string, Config>): set<string> {
    set service | service in old_.Keys + new_.Keys && Configured(base, old_, service) != Configured(base, new_, service)
  }

  /** Hot-applying configs is, for every endpoint, one config event of its state machine or no event at all. */
  lemma HotApplyReconfigures(health: Table, base: Config, old_: map<string, Config>, new_: map<string, Config>,
                             clock: string -> int, key: string)
    requires key in health
    ensures var changed := Reconfigures(base, old_, new_);
            var service := health[key].service;
            var before := Node(Configured(base, old_, service), Timeless(health[key]));
            var after := Node(Configured(base, new_, service), Timeless(ResetCounters(health, changed, clock)[key]));
            after == if service in changed then Next(before, Reconfigured(after.cfg)) else before
  {
    hide Resolve;
    var service := health[key].service;
    assert service !in old_ && service !in new_ ==> Configured(base, old_, service) == Configured(base, new_, service);
  }

  function Ticked(base: Config, overrides: map<string, Config>, t: Clock, h: Health): Health {
    var h' := Applied(Configured(base, overrides, h.service), h, Input(t.now, t.wall, h.slowScore, 1.0));
    if h' != h then h'.(updatedAt := t.now) else h
  }

  lemma TickedRecord(base: Config, overrides: map<string, Config>, t: Clock, h: Health)
    ensures var h' := Ticked(base, overrides, t, h);
            && h'.service == h.service && h'.instanceId == h.instanceId
            && (h' != h <==> Timeless(h') != Timeless(h)) && (h' != h ==> h'.updatedAt == t.now)
  {
    AppliedKeepsIdentity(Configured(base, overrides, h.service), h, Input(t.now, t.wall, h.slowScore, 1.0));
    hide Applied, Configured;
    var h' := Applied(Configured(base, overrides, h.service), h, Input(t.now, t.wall, h.slowScore, 1.0));
    assert h == Timeless(h).(updatedAt := h.updatedAt) && h' == Timeless(h').(updatedAt := h.updatedAt);
  }

  /** A tick is one window of each endpoint's state machine, with its last score and no failures. */
  lemma TickIsWindow(base: Config, overrides: map<string, Config>, t: Clock, h: Health)
    ensures var start := Node(Configured(base, overrides, h.service), Core(h));
            Next(start, Window(Input(t.now, t.wall, h.slowScore, 1.0))) ==
            Node(start.cfg, Core(Ticked(base, overrides, t, h)))
  {
    hide Applied, Configured;
    CoreWindow(Configured(base, overrides, h.service), h, Input(t.now, t.wall, h.slowScore, 1.0));
  }

  function TickedAll(base: Config, overrides: map<string, Config>, t: Clock, health: Table, keys: set<string>): Progress {
    Progress(
      map key | key in health :: if key in keys then Ticked(base, overrides, t, health[key]) else health[key],
      set key | key in health && key in keys && Ticked(base, overrides, t, health[key]) != health[key] :: health[key].service)
  }

  lemma TickIsSound(base: Config, overrides: map<string, Config>, t: Clock, health: Table, keys: set<string>)
    requires Keyed(health)
    ensures SoundProgress(health, TickedAll(base, overrides, t, health, keys))
  {
    hide Ticked;
    forall key | key in health
      ensures var h' := Ticked(base, overrides, t, health[key]);
              && h'.service == health[key].service && h'.instanceId == health[key].instanceId
              && (h' != health[key] <==> Timeless(h') != Timeless(health[key]))
    {
      TickedRecord(base, overrides, t, health[key]);
    }
  }

  /** A tick marks exactly the services whose view it changes. */
  lemma TickMarksChanges(base: Config, overrides: map<string, Config>, t: Clock, health: Table, service: string)
    requires Keyed(health) && service != ""
    ensures var p := TickedAll(base, overrides, t, health, health.Keys);
            service in p.changed <==> !SameView(health, p.health, service)
  {
    hide Ticked;
    var p := TickedAll(base, overrides, t, health, health.Keys);
    TickIsSound(base, overrides, t, health, health.Keys);
    if service in p.changed {
      var key :| key in health && Ticked(base, overrides, t, health[key]) != health[key] && health[key].service == service;
      TickedRecord(base, overrides, t, health[key]);
      assert InView(health, key, service);
    }
  }

  datatype Identity = Identity(service: string, instanceId: string, epoch: string)

  ghost predicate AnyEpoch(retain: map<Identity, string>, h: Health, address: string) {
    exists c :: c in retain && c.service == h.service && c.instanceId == h.instanceId && retain[c] == address
  }

  /** `address` is one that the registry may hold for the endpoint behind `h`; a legacy record matches any epoch. */
  ghost predicate Holds(retain: map<Identity, string>, h: Health, address: string) {
    var exact, legacy := Identity(h.service, h.instanceId, h.epoch), Identity(h.service, h.instanceId, "");
    if exact in retain then address == retain[exact]
    else if legacy in retain then address == retain[legacy]
    else h.epoch == "" && AnyEpoch(retain, h, address)
  }

  predicate AddressMatches(a: string, b: string) {
    a == "" || b == "" || a == b
  }

  method RetainedAddress(retain: map<Identity, string>, h: Health) returns (found: bool, address: string)
    ensures found ==> Holds(retain, h, address)
    ensures !found ==> forall a :: !Holds(retain, h, a)
  {
    var exact, legacy := Identity(h.service, h.instanceId, h.epoch), Identity(h.service, h.instanceId, "");
    if exact in retain {
      return true, retain[exact];
    }
    if legacy in retain {
      return true, retain[legacy];
    }
    if h.epoch == "" {
      var rest := retain.Keys;
      while rest != {}
        invariant rest <= retain.Keys
        invariant forall c :: c in retain.Keys - rest ==> c.service != h.service || c.instanceId != h.instanceId
        decreases rest
      {
        var c :| c in rest;
        if c.service == h.service && c.instanceId == h.instanceId {
          return true, retain[c];
        }
        rest := rest - {c};
      }
    }
    return false, "";
  }

  /** What is known of the registered addresses. */
  datatype Registered = NoRegistry | Registry(addresses: map<Identity, string>)

  ghost predicate Kept(retain: map<Identity, string>, h: Health) {
    exists a :: Holds(retain, h, a) && AddressMatches(h.address, a)
  }

  ghost predicate Dropped(retain: map<Identity, string>, h: Health) {
    (forall a :: !Holds(retain, h, a)) || exists a :: Holds(retain, h, a) && !AddressMatches(h.address, a)
  }

  ghost predicate Within(health: Table, health': Table) {
    health'.Keys <= health.Keys && forall key :: key in health' ==> health'[key] == health[key]
  }

  /** Apart from the keys in `rest`, what is left is registered, and what is gone is not or has moved. */
  ghost predicate Pruned(retain: map<Identity, string>, health: Table, health': Table, rest: set<string>) {
    && Within(health, health')
    && (forall key :: key in health' && key !in rest ==> Kept(retain, health'[key]))
    && (forall key :: key in health && key !in health' ==> Dropped(retain, health[key]))
  }

  /**
   What a prune keeps. A record registered under its own epoch, or else under none, stays exactly when
   no two known addresses differ; a record whose endpoint is not registered goes; and a record without
   an epoch stays when every registration of its endpoint could be it.
   */
  lemma PruneRule(retain: map<Identity, string>, health: Table, health': Table, key: string)
    requires Pruned(retain, health, health', {}) && key in health
    ensures var h := health[key];
            var own, bare := Identity(h.service, h.instanceId, h.epoch), Identity(h.service, h.instanceId, "");
            var any := exists c :: c in retain && c.service == h.service && c.instanceId == h.instanceId;
            && (own in retain ==> (key in health' <==> h.address == "" || retain[own] == "" || h.address == retain[own]))
            && (own !in retain && bare in retain
                ==> (key in health' <==> h.address == "" || retain[bare] == "" || h.address == retain[bare]))
            && (!any || (own !in retain && bare !in retain && h.epoch != "") ==> key !in health')
            && (any && h.epoch == "" && (forall c :: c in retain && c.service == h.service && c.instanceId == h.instanceId
                                           ==> h.address == "" || retain[c] == "" || h.address == retain[c])
                ==> key in health')
  {
    var h := health[key];
    assert key !in health' ==> Dropped(retain, h);
    assert key in health' ==> Kept(retain, h);
    var own, bare := Identity(h.service, h.instanceId, h.epoch), Identity(h.service, h.instanceId, "");
    assert own in retain ==> Holds(retain, h, retain[own]);
    assert own !in retain && bare in retain ==> Holds(retain, h, retain[bare]);
    if c :| c in retain && c.service == h.service && c.instanceId == h.instanceId {
      assert AnyEpoch(retain, h, retain[c]);
      assert own !in retain && h.epoch == "" ==> Holds(retain, h, retain[c]);
    }
  }

  /** The services that lost a record. */
  function Lost(health: Table, health': Table): set<string> {
    set key | key in health && key !in health' :: health[key].service
  }

  lemma LostNone(health: Table)
    ensures Lost(health, health) == {} && Within(health, health)
  {
  }

  lemma PrunedNone(retain: map<Identity, string>, health: Table)
    ensures Pruned(retain, health, health, health.Keys)
  {
  }

  lemma PrunedKeeps(retain: map<Identity, string>, health: Table, health': Table)
    requires Pruned(retain, health, health', {})
    ensures Within(health, health')
  {
  }

  lemma PrunedOne(retain: map<Identity, string>, health: Table, health': Table, rest: set<string>, key: string,
                  found: bool, address: string)
    requires Pruned(retain, health, health', rest) && key in rest && key in health'
    requires found ==> Holds(retain, health'[key], address)
    requires !found ==> forall a :: !Holds(retain, health'[key], a)
    ensures found && AddressMatches(health'[key].address, address) ==> Pruned(retain, health, health', rest - {key})
    ensures !(found && AddressMatches(health'[key].address, address)) ==>
              && Pruned(retain, health, health' - {key}, rest - {key})
              && Lost(health, health' - {key}) == Lost(health, health') + {health'[key].service}
  {
    hide Holds, AddressMatches;
  }

  lemma PruneIsSound(health: Table, health': Table, changed: set<string>)
    requires Keyed(health) && Within(health, health') && changed == Lost(health, health')
    ensures SoundProgress(health, Progress(health', changed))
  {
  }

  // ---------------------------------------------------------------- whole runs

  datatype Operation =
    | Updated(samples: seq<Sample>, scores: map<string, Score>, t: Clock)
    | TickedAt(t: Clock)
    | MergedIn(snapshot: seq<Health>, now: int)
    | PrunedTo(retain: map<Identity, string>, left: Table)
    | ConfigsReplaced(overrides: map<string, Config>, clock: string -> int)

  datatype State = State(board: Board, overrides: map<string, Config>)

  ghost predicate Enabled(s: State, op: Operation) {
    match op
    case Updated(samples, _, _) => forall x :: x in samples ==> SlashFree(x.service)
    case TickedAt(_) => true
    case MergedIn(snapshot, _) => forall h :: h in snapshot ==> SlashFree(h.service)
    case PrunedTo(retain, left) => Pruned(retain, s.board.health, left, {})
    case ConfigsReplaced(overrides, _) => "" !in overrides
  }

  /** What an operation does to the records, and the services it marks. */
  ghost function Change(base: Config, s: State, op: Operation): Progress {
    var health := s.board.health;
    match op
    case Updated(samples, scores, t) => ReportedAll(Progress(health, {}), base, s.overrides, t, scores, samples)
    case TickedAt(t) => TickedAll(base, s.overrides, t, health, health.Keys)
    case MergedIn(snapshot, now) => MergedAll(Progress(health, {}), StampedAll(snapshot, now))
    case PrunedTo(_, left) => Progress(left, Lost(health, left))
    case ConfigsReplaced(overrides, clock) =>
      var changed := Reconfigures(base, s.overrides, overrides);
      Progress(ResetCounters(health, changed, clock), changed)
  }

  ghost function Step(base: Config, s: State, op: Operation): State {
    var p := Change(base, s, op);
    State(Bumped(s.board.(health := p.health), p.changed),
          if op.ConfigsReplaced? then op.overrides else s.overrides)
  }

  ghost predicate ValidState(s: State) {
    ValidBoard(s.board) && "" !in s.overrides
  }

  lemma ChangeIsSound(base: Config, s: State, op: Operation)
    requires ValidState(s) && Enabled(s, op)
    ensures var p := Change(base, s, op); SoundProgress(s.board.health, p)
  {
    hide SoundProgress, Applied, Configured, ReportedAll, MergedAll, TickedAll, ResetCounters;
    var health := s.board.health;
    KeyedBoard(s.board);
    match op
    case Updated(samples, scores, t) => ReportsAreSound(health, base, s.overrides, t, scores, samples);
    case TickedAt(t) => TickIsSound(base, s.overrides, t, health, health.Keys);
    case MergedIn(snapshot, now) => MergesAreSound(health, StampedAll(snapshot, now));
    case PrunedTo(_, left) => PruneIsSound(health, left, Lost(health, left));
    case ConfigsReplaced(overrides, clock) => ResetIsSound(health, Reconfigures(base, s.overrides, overrides), clock);
  }

  lemma StepAdvances(base: Config, s: State, op: Operation)
    requires ValidState(s) && Enabled(s, op)
    ensures Advances(s.board, Step(base, s, op).board) && ValidState(Step(base, s, op))
  {
    hide Advances, SoundProgress, ValidBoard, Change;
    var p := Change(base, s, op);
    ChangeIsSound(base, s, op);
    KeyedBoard(s.board);
    Tags(s.board, p.health, p.changed);
  }

  ghost predicate IsRun(base: Config, ops: seq<Operation>, states: seq<State>) {
    && |states| == |ops| + 1 && ValidState(states[0])
    && forall k :: 0 <= k < |ops| ==> Enabled(states[k], ops[k]) && states[k + 1] == Step(base, states[k], ops[k])
  }

  lemma {:induction false} RunStaysValid(base: Config, ops: seq<Operation>, states: seq<State>, k: nat)
    requires IsRun(base, ops, states) && k <= |ops|
    ensures ValidState(states[k])
  {
    hide Step, Enabled, ValidState;
    if k > 0 {
      RunStaysValid(base, ops, states, k - 1);
      StepAdvances(base, states[k - 1], ops[k - 1]);
    }
  }

  lemma {:induction false} RunAdvances(base: Config, ops: seq<Operation>, states: seq<State>, i: nat, j: nat)
    requires IsRun(base, ops, states) && i < j <= |ops|
    ensures Advances(states[i].board, states[j].board)
    decreases j
  {
    hide Advances, Step, Enabled, ValidState;
    RunStaysValid(base, ops, states, j - 1);
    StepAdvances(base, states[j - 1], ops[j - 1]);
    if i < j - 1 {
      RunAdvances(base, ops, states, i, j - 1);
      AdvancesTransitive(states[i].board, states[j - 1].board, states[j].board);
    }
  }

  /**
   Health versions are sound cache tags over every run of updates, ticks, merges, prunes and config
   replacements: equal at two points means the same view at both, and none exceeds the global revision.
   */
  lemma VersionsAreCacheTags(base: Config, ops: seq<Operation>, states: seq<State>, i: nat, j: nat, service: string)
    requires IsRun(base, ops, states) && i <= j <= |ops|
    ensures Version(states[i].board, service) <= Version(states[j].board, service) <= states[j].board.revision
    ensures (Version(states[i].board, service) == Version(states[j].board, service)
             ==> SameView(states[i].board.health, states[j].board.health, service))
  {
    hide Step, Enabled;
    RunStaysValid(base, ops, states, j);
    if i < j {
      RunAdvances(base, ops, states, i, j);
    }
  }

  const EMPTY := State(Board(map[], 0, map[]), map[])

  /**
   Any service name with a slash after its first character breaks the tags: its endpoint shares a key
   with an endpoint of the service before that slash. A new manager that has merged that endpoint and
   then hears a sample of the other changes the first service's view under an unchanged version,
   whatever the scores.
   */
  lemma SlashBreaksTags(service: string, instanceId: string, i: nat, base: Config, t: Clock, scores: map<string, Score>)
    returns (h: Health, s: Sample)
    requires 0 < i < |service| && service[i] == '/' && SlashFree(service[..i]) && instanceId != "" && t.now != 0
    ensures s.service == service && s.instanceId == instanceId && Enabled(EMPTY, MergedIn([h], t.now))
    ensures var b := Step(base, EMPTY, MergedIn([h], t.now));
            var b' := Step(base, b, Updated([s], scores, t));
            && Version(b.board, service[..i]) == Version(b'.board, service[..i]) == 1
            && !SameView(b.board.health, b'.board.health, service[..i])
  {
    var first, id := service[..i], service[i + 1..] + "/" + instanceId;
    var key := ScoreKey(service, instanceId);
    assert key == ScoreKey(first, id);
    var score := if key in scores then scores[key].total else 0.0;
    h := NewHealth(first, id, "", "").(slowScore := score + 1.0, updatedAt := t.now);
    s := Sample(service, instanceId, "", "", "", 0, 0, 0, 0, 0, 0, 0, 0, 0);
    hide Step, Reported, Bumped;
    var b := Step(base, EMPTY, MergedIn([h], t.now));
    MergedFresh(base, h, t.now);
    SharedKey(b.board.health, base, t, scores, s, h);
    OneUpdate(base, b, s, scores, t);
    OtherTag(b.board, Reported(Progress(b.board.health, {}), base, map[], t, scores, s), service, first);
    assert InView(b.board.health, key, first);
  }

  lemma MergedFresh(base: Config, h: Health, now: int)
    requires Named(h) && h.state == Healthy && h.updatedAt != 0
    ensures Step(base, EMPTY, MergedIn([h], now))
         == State(Board(map[HealthKey(h) := h], 1, map[h.service := 1]), map[])
  {
    OneMerge(Progress(map[], {}), h, now);
    assert Stamped(h, now) == h;
    assert Retagged(map[], {h.service}, 1) == map[h.service := 1];
  }

  lemma OneUpdate(base: Config, s: State, sample: Sample, scores: map<string, Score>, t: Clock)
    ensures var p := Reported(Progress(s.board.health, {}), base, s.overrides, t, scores, sample);
            Step(base, s, Updated([sample], scores, t)).board == Bumped(s.board.(health := p.health), p.changed)
  {
    hide Reported, Bumped;
    var start := Progress(s.board.health, {});
    assert [sample][..0] == [];
    assert ReportedAll(start, base, s.overrides, t, scores, []) == start;
    assert ReportedAll(start, base, s.overrides, t, scores, [sample]) == Reported(start, base, s.overrides, t, scores, sample);
  }

  lemma OtherTag(b: Board, p: Progress, service: string, other: string)
    requires p.changed == {service} && service != other && other != ""
    ensures Version(Bumped(b.(health := p.health), p.changed), other) == Version(b, other)
    ensures Bumped(b.(health := p.health), p.changed).health == p.health
  {
  }

  /** A sample of an endpoint whose key another endpoint's record holds changes that record. */
  lemma SharedKey(health: Table, base: Config, t: Clock, scores: map<string, Score>, s: Sample, h: Health)
    requires s.service != "" && s.instanceId != "" && s.address == "" && s.epoch == "" && h.service != ""
    requires var key := ScoreKey(s.service, s.instanceId); key in health && health[key] == h
    requires var key := ScoreKey(s.service, s.instanceId);
             h.slowScore != if key in scores then scores[key].total else 0.0
    ensures var key, p := ScoreKey(s.service, s.instanceId), Reported(Progress(health, {}), base, map[], t, scores, s);
            && p.changed == {s.service} && p.health.Keys == health.Keys
            && p.health[key].slowScore == if key in scores then scores[key].total else 0.0
  {
    hide Configured;
  }

  /** What the score calculation may hand to an update. */
  ghost predicate ScoresFor(w: Weights, slo: int, samples: seq<Sample>, scores: map<string, Score>) {
    && scores.Keys == (set k | k in FoldedAll(samples) :: OutKey(k))
    && forall k :: k in FoldedAll(samples) && OwnKey(FoldedAll(samples), k)
         ==> Scored(w, slo, FoldedAll(samples), k, scores[OutKey(k)])
  }

  class HealthManager {
    const weights: Weights
    const slo: int
    const base: Config
    var overrides: map<string, Config>
    var health: Table
    var revision: nat
    var revisions: map<string, nat>

    ghost function Published(): Board
      reads this
    {
      Board(health, revision, revisions)
    }

    ghost predicate Valid()
      reads this
    {
      Fits(Published()) && "" !in overrides
    }

    constructor (weights: Weights, slo: int, base: Config, overrides: map<string, Config>)
      ensures Valid() && Keyed(health) && Published() == Board(map[], 0, map[])
      ensures this.weights == weights && this.slo == slo && this.base == WithDefaults(base)
      ensures this.overrides == overrides - {""}
    {
      this.weights, this.slo, this.base := weights, slo, WithDefaults(base);
      this.overrides := overrides - {""};
      health, revision, revisions := map[], 0, map[];
    }

    method Bump(changed: set<string>)
      modifies this`revision, this`revisions
      ensures Published() == Bumped(old(Published()), changed)
    {
      hide Retagged;
      if changed == {} {
        return;
      }
      revision := revision + 1;
      ghost var start := revisions;
      var rest := changed;
      assert changed - rest == {};
      TagNone(start, revision);
      while rest != {}
        modifies this`revisions
        invariant rest <= changed && revisions == Retagged(start, changed - rest, revision)
        decreases rest
      {
        var s :| s in rest;
        TagMore(start, changed - rest, s, revision);
        assert changed - rest + {s} == changed - (rest - {s});
        revisions, rest := revisions[s := revision], rest - {s};
      }
      assert changed - rest == changed;
    }

    method Update(samples: seq<Sample>, t: Clock)
      requires Valid()
      modifies this`health, this`revision, this`revisions
      ensures Valid()
      ensures (old(Keyed(health)) && (forall s :: s in samples ==> SlashFree(s.service))
               ==> Keyed(health) && Advances(old(Published()), Published()))
      ensures exists scores :: ScoresFor(weights, slo, samples, scores)
                && var p := ReportedAll(Progress(old(health), {}), base, overrides, t, scores, samples);
                   Published() == Bumped(old(Published()).(health := p.health), p.changed)
    {
      hide Advances, Reported, SoundProgress, ScoresFor, ValidBoard, Keyed, Fits;
      var scores := Calculate(weights, slo, samples);
      ScoresAre(weights, slo, samples, scores);
      ghost var start := Progress(health, {});
      var changed := {};
      for i := 0 to |samples|
        modifies this`health
        invariant Progress(health, changed) == ReportedAll(start, base, overrides, t, scores, samples[..i])
      {
        assert samples[..i + 1][..i] == samples[..i];
        changed := Report(samples[i], t, scores, changed);
      }
      assert samples[..|samples|] == samples;
      BumpFits(old(Published()), health, changed);
      if old(Keyed(health)) && (forall s :: s in samples ==> SlashFree(s.service)) {
        ReportsAreSound(old(health), base, overrides, t, scores, samples);
        Tags(old(Published()), health, changed);
      }
      Bump(changed);
    }

    /** One sample of a report. */
    method Report(s: Sample, t: Clock, scores: map<string, Score>, changed: set<string>) returns (changed': set<string>)
      modifies this`health
      ensures Progress(health, changed')
           == Reported(Progress(old(health), changed), base, overrides, t, scores, s)
    {
      hide Applied, Configured;
      changed' := changed;
      if s.service == "" || s.instanceId == "" {
        return;
      }
      var key := ScoreKey(s.service, s.instanceId);
      var existed := key in health;
      var record := if existed then health[key] else NewHealth("", "", "", "");
      if record.service == "" || AddressChanged(record, s.address) || EpochChanged(record, s.epoch) {
        record := NewHealth(s.service, s.instanceId, s.address, s.epoch);
      }
      if s.address != "" {
        record := record.(address := s.address);
      }
      if s.epoch != "" {
        record := record.(epoch := s.epoch);
      }
      var score := if key in scores then scores[key].total else 0.0;
      record := Applied(Configured(base, overrides, record.service), record, Input(t.now, t.wall, score, SuccessRate(s)));
      if !existed || Timeless(health[key]) != Timeless(record) {
        record := record.(updatedAt := t.now);
        changed' := changed' + {s.service};
      }
      health := health[key := record];
    }

    method Tick(t: Clock)
      requires Valid()
      modifies this`health, this`revision, this`revisions
      ensures Valid()
      ensures old(Keyed(health)) ==> Keyed(health) && Advances(old(Published()), Published())
      ensures var p := TickedAll(base, overrides, t, old(health), old(health.Keys));
              Published() == Bumped(old(Published()).(health := p.health), p.changed)
    {
      hide Advances, Ticked, SoundProgress, ValidBoard, Keyed, Fits;
      ghost var start := health;
      var rest, changed := health.Keys, {};
      assert start.Keys - rest == {};
      NothingTicked(base, overrides, t, start);
      while rest != {}
        modifies this`health
        invariant rest <= start.Keys
        invariant Progress(health, changed) == TickedAll(base, overrides, t, start, start.Keys - rest)
        decreases rest
      {
        var key :| key in rest;
        changed := TickOne(key, t, changed);
        TickedMore(base, overrides, t, start, start.Keys - rest, key);
        assert start.Keys - rest + {key} == start.Keys - (rest - {key});
        rest := rest - {key};
      }
      assert start.Keys - rest == start.Keys;
      BumpFits(old(Published()), health, changed);
      if old(Keyed(health)) {
        TickIsSound(base, overrides, t, start, start.Keys);
        Tags(old(Published()), health, changed);
      }
      Bump(changed);
    }

    /** One endpoint of a tick. */
    method TickOne(key: string, t: Clock, changed: set<string>) returns (changed': set<string>)
      requires key in health
      modifies this`health
      ensures var h := old(health)[key];
              var h' := Ticked(base, overrides, t, h);
              && health == old(health)[key := h']
              && changed' == if h' != h then changed + {h.service} else changed
    {
      hide Applied, Configured;
      changed' := changed;
      var record := health[key];
      var input := Input(t.now, t.wall, record.slowScore, 1.0);
      var after := Applied(Configured(base, overrides, record.service), record, input);
      AppliedKeepsIdentity(Configured(base, overrides, record.service), record, input);
      TickedRecord(base, overrides, t, record);
      if after != record {
        after := after.(updatedAt := t.now);
        changed' := changed' + {after.service};
      }
      health := health[key := after];
    }

    method MergeSnapshot(snapshot: seq<Health>, now: int) returns (services: nat)
      requires Valid()
      modifies this`health, this`revision, this`revisions
      ensures Valid()
      ensures (old(Keyed(health)) && (forall h :: h in snapshot ==> SlashFree(h.service))
               ==> Keyed(health) && Advances(old(Published()), Published()))
      ensures var p := MergedAll(Progress(old(health), {}), StampedAll(snapshot, now));
              Published() == Bumped(old(Published()).(health := p.health), p.changed) && services == |p.changed|
    {
      hide Advances, Merged, SoundProgress, ValidBoard, Keyed, Fits;
      ghost var start := Progress(health, {});
      ghost var stamped := StampedAll(snapshot, now);
      var changed := {};
      for i := 0 to |snapshot|
        modifies this`health
        invariant Progress(health, changed) == MergedAll(start, stamped[..i])
      {
        assert stamped[..i + 1][..i] == stamped[..i];
        changed := Merge(snapshot[i], now, changed);
      }
      assert stamped[..|snapshot|] == stamped;
      BumpFits(old(Published()), health, changed);
      if old(Keyed(health)) && (forall h :: h in snapshot ==> SlashFree(h.service)) {
        MergesAreSound(old(health), stamped);
        Tags(old(Published()), health, changed);
      }
      Bump(changed);
      services := |changed|;
    }

    /** One record of a snapshot. */
    method Merge(h: Health, now: int, changed: set<string>) returns (changed': set<string>)
      modifies this`health
      ensures Progress(health, changed') == Merged(Progress(old(health), changed), Stamped(h, now))
    {
      changed' := changed;
      if h.service == "" || h.instanceId == "" {
        return;
      }
      var record := h;
      if record.state == Unspecified {
        record := record.(state := Healthy);
      }
      if record.updatedAt == 0 {
        record := record.(updatedAt := now);
      }
      var key := HealthKey(record);
      if key in health && health[key].updatedAt > record.updatedAt {
        return;
      }
      if key in health && Timeless(health[key]) == Timeless(record) {
        if record.updatedAt > health[key].updatedAt {
          health := health[key := health[key].(updatedAt := record.updatedAt)];
        }
        return;
      }
      health := health[key := record];
      changed' := changed' + {record.service};
    }

    /** Without a registry view nothing is pruned. */
    method PruneMissing(registered: Registered) returns (removed: nat)
      requires Valid()
      modifies this`health, this`revision, this`revisions
      ensures Valid()
      ensures old(Keyed(health)) ==> Keyed(health) && Advances(old(Published()), Published())
      ensures removed == |old(health)| - |health|
      ensures registered.NoRegistry? ==> health == old(health)
      ensures registered.Registry? ==> Pruned(registered.addresses, old(health), health, {})
      ensures Published() == Bumped(old(Published()).(health := health), Lost(old(health), health))
    {
      hide Advances, SoundProgress, ValidBoard, Lost, Pruned, Keyed, Fits;
      var changed := {};
      removed := 0;
      LostNone(health);
      if registered.Registry? {
        changed, removed := DropMissing(registered.addresses);
        PrunedKeeps(registered.addresses, old(health), health);
      }
      BumpFits(old(Published()), health, changed);
      if old(Keyed(health)) {
        PruneIsSound(old(health), health, changed);
        Tags(old(Published()), health, changed);
      }
      Bump(changed);
    }

    method DropMissing(retain: map<Identity, string>) returns (changed: set<string>, removed: nat)
      modifies this`health
      ensures Pruned(retain, old(health), health, {}) && changed == Lost(old(health), health)
      ensures removed == |old(health)| - |health|
    {
      hide Holds, AddressMatches, Lost, Pruned;
      ghost var start := health;
      var rest := health.Keys;
      changed, removed := {}, 0;
      LostNone(start);
      PrunedNone(retain, start);
      while rest != {}
        modifies this`health
        invariant rest <= health.Keys && removed == |start| - |health|
        invariant Pruned(retain, start, health, rest) && changed == Lost(start, health)
        decreases rest
      {
        var key :| key in rest;
        var record := health[key];
        var found, address := RetainedAddress(retain, record);
        PrunedOne(retain, start, health, rest, key, found, address);
        rest := rest - {key};
        if found && AddressMatches(record.address, address) {
          continue;
        }
        assert (health - {key}).Keys == health.Keys - {key};
        health, changed, removed := health - {key}, changed + {record.service}, removed + 1;
      }
    }

    method SetServiceConfig(service: string, cfg: Config, clock: string -> int) returns (changes: bool)
      requires Valid()
      modifies this`overrides, this`health, this`revision, this`revisions
      ensures Valid()
      ensures old(Keyed(health)) ==> Keyed(health) && Advances(old(Published()), Published())
      ensures overrides == if service == "" then old(overrides) else old(overrides)[service := cfg]
      ensures var changed := Reconfigures(base, old(overrides), overrides);
              && changes == (changed != {}) && changed <= {service}
              && Published() == Bumped(old(Published()).(health := ResetCounters(old(health), changed, clock)), changed)
    {
      hide Advances, Resolve, SoundProgress, ValidBoard, Keyed, Fits;
      ghost var was := overrides;
      if service == "" {
        NothingReset(health, clock);
        BumpFits(Published(), health, {});
        if old(Keyed(health)) {
          ResetIsSound(health, {}, clock);
          Tags(Published(), health, {});
        }
        return false;
      }
      var before := Configured(base, overrides, service);
      overrides := overrides[service := cfg];
      assert Reconfigures(base, was, overrides) == if before == Configured(base, overrides, service) then {} else {service};
      if before == Configured(base, overrides, service) {
        NothingReset(health, clock);
        BumpFits(old(Published()), health, {});
        if old(Keyed(health)) {
          ResetIsSound(health, {}, clock);
          Tags(old(Published()), health, {});
        }
        return false;
      }
      ResetService(service, clock);
      OneReset(old(health), service, clock);
      BumpFits(old(Published()), health, {service});
      if old(Keyed(health)) {
        ResetIsSound(old(health), {service}, clock);
        Tags(old(Published()), health, {service});
      }
      Bump({service});
      return true;
    }

    method ReplaceConfigs(given: map<string, Config>, clock: string -> int) returns (changes: nat)
      requires Valid()
      modifies this`overrides, this`health, this`revision, this`revisions
      ensures Valid() && overrides == given - {""}
      ensures old(Keyed(health)) ==> Keyed(health) && Advances(old(Published()), Published())
      ensures var changed := Reconfigures(base, old(overrides), overrides);
              && changes == |changed|
              && Published() == Bumped(old(Published()).(health := ResetCounters(old(health), changed, clock)), changed)
    {
      hide Advances, Configured, SoundProgress, ValidBoard, Keyed, Fits;
      var configs := given - {""};
      var changed := Compare(configs);
      overrides := configs;
      ResetAll(changed, clock);
      BumpFits(old(Published()), health, changed);
      if old(Keyed(health)) {
        ResetIsSound(old(health), changed, clock);
        Tags(old(Published()), health, changed);
      }
      Bump(changed);
      changes := |changed|;
    }

    /** The services whose effective config the new overrides change. */
    method Compare(configs: map<string, Config>) returns (changed: set<string>)
      requires "" !in overrides && "" !in configs
      ensures changed == Reconfigures(base, overrides, configs) && "" !in changed
    {
      hide Resolve;
      changed := {};
      var rest := overrides.Keys;
      while rest != {}
        invariant rest <= overrides.Keys
        invariant changed == set s | s in overrides.Keys - rest && Configured(base, overrides, s) != Configured(base, configs, s)
        decreases rest
      {
        var s :| s in rest;
        rest := rest - {s};
        if Configured(base, overrides, s) != Configured(base, configs, s) {
          changed := changed + {s};
        }
      }
      rest := configs.Keys;
      while rest != {}
        invariant rest <= configs.Keys
        invariant changed == set s | s in overrides.Keys + (configs.Keys - rest)
                                  && Configured(base, overrides, s) != Configured(base, configs, s)
        decreases rest
      {
        var s :| s in rest;
        rest := rest - {s};
        if s in overrides {
          continue;
        }
        if Configured(base, overrides, s) != Configured(base, configs, s) {
          changed := changed + {s};
        }
      }
    }

    method ResetAll(services: set<string>, clock: string -> int)
      modifies this`health
      ensures health == ResetCounters(old(health), services, clock)
    {
      hide ResetCounters;
      var rest := services;
      assert services - rest == {};
      NothingReset(health, clock);
      while rest != {}
        invariant rest <= services && health == ResetCounters(old(health), services - rest, clock)
        decreases rest
      {
        var service :| service in rest;
        ResetMore(old(health), services - rest, service, clock);
        ResetService(service, clock);
        assert services - rest + {service} == services - (rest - {service});
        rest := rest - {service};
      }
      assert services - rest == services;
    }

    method ResetService(service: string, clock: string -> int)
      modifies this`health
      ensures health == ResetCounters(old(health), {service}, clock)
    {
      ghost var start := health;
      var rest := health.Keys;
      while rest != {}
        modifies this`health
        invariant rest <= start.Keys
        invariant health == map key | key in start :: if key in rest then start[key] else ResetRecord(start[key], {service}, clock)
        decreases rest
      {
        var key :| key in rest;
        var record := health[key];
        rest := rest - {key};
        if record.service != service {
          continue;
        }
        if record.slowWindows == 0 && record.ejectWindows == 0 {
          continue;
        }
        health := health[key := record.(slowWindows := 0, ejectWindows := 0, updatedAt := clock(service))];
      }
    }
  }

  lemma KeyedBoard(b: Board)
    requires ValidBoard(b)
    ensures Keyed(b.health) && Fits(b)
  {
  }

  lemma BumpFits(b: Board, health': Table, changed: set<string>)
    requires Fits(b)
    ensures Fits(Bumped(b.(health := health'), changed))
  {
  }

  /** A sound change of the records followed by a bump advances the board. */
  lemma Tags(b: Board, health': Table, changed: set<string>)
    requires Keyed(b.health) && Fits(b) && SoundProgress(b.health, Progress(health', changed))
    ensures Advances(b, Bumped(b.(health := health'), changed))
    ensures Keyed(health') && ValidBoard(Bumped(b.(health := health'), changed))
  {
    BumpIsSound(b, health', changed);
  }

  lemma ScoresAre(w: Weights, slo: int, samples: seq<Sample>, scores: map<string, Score>)
    requires scores.Keys == set k | k in FoldedAll(samples) :: OutKey(k)
    requires forall k :: k in FoldedAll(samples) && OwnKey(FoldedAll(samples), k)
               ==> Scored(w, slo, FoldedAll(samples), k, scores[OutKey(k)])
    ensures ScoresFor(w, slo, samples, scores)
  {
  }

  lemma NothingTicked(base: Config, overrides: map<string, Config>, t: Clock, health: Table)
    ensures TickedAll(base, overrides, t, health, {}) == Progress(health, {})
  {
  }

  lemma TickedMore(base: Config, overrides: map<string, Config>, t: Clock, health: Table, keys: set<string>, key: string)
    requires key in health && key !in keys
    ensures var p, h := TickedAll(base, overrides, t, health, keys), health[key];
            var h' := Ticked(base, overrides, t, h);
            && TickedAll(base, overrides, t, health, keys + {key}).health == p.health[key := h']
            && TickedAll(base, overrides, t, health, keys + {key}).changed
               == if h' != h then p.changed + {h.service} else p.changed
  {
    hide Ticked;
  }

  lemma NothingReset(health: Table, clock: string -> int)
    ensures ResetCounters(health, {}, clock) == health
  {
  }

  lemma OneReset(health: Table, service: string, clock: string -> int)
    ensures ResetCounters(ResetCounters(health, {}, clock), {service}, clock) == ResetCounters(health, {service}, clock)
  {
  }

  lemma ResetMore(health: Table, services: set<string>, service: string, clock: string -> int)
    requires service !in services
    ensures ResetCounters(ResetCounters(health, services, clock), {service}, clock)
         == ResetCounters(health, services + {service}, clock)
  {
  }
}
