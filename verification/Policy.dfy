/**
 Retry policy on the client. The hot path patches a retry record compiled once from the dial options;
 the reference path rewrites the dial options and compiles them. A uint64 mask of retryable codes is
 its 64 bits, lowest first; durations are int64 nanoseconds.
 */
module Policy {
  import opened Basics

  // ---------------------------------------------------------------- retryable code masks

  function Zeros(n: nat): (bits: seq<bool>)
    ensures |bits| == n && forall i :: 0 <= i < n ==> !bits[i]
  {
    if n == 0 then [] else Zeros(n - 1) + [false]
  }

  type Mask = m: seq<bool> | |m| == 64 witness Zeros(64)

  const NO_CODES: Mask := Zeros(64)

  const DEADLINE_EXCEEDED := 4
  const UNAVAILABLE := 14

  const DEFAULT_MASK: Mask := NO_CODES[UNAVAILABLE := true][DEADLINE_EXCEEDED := true]

  function WithCode(mask: Mask, code: nat): Mask {
    if code >= 64 then mask else mask[code := true]
  }

  function MaskOf(codes: seq<nat>): Mask {
    if codes == [] then NO_CODES else WithCode(MaskOf(codes[..|codes| - 1]), codes[|codes| - 1])
  }

  predicate HasCode(mask: Mask, code: nat) {
    code < 64 && mask[code]
  }

  /** The codes of a mask below `n`, in ascending order. */
  function CodesBelow(mask: Mask, n: nat): seq<nat>
    requires n <= |mask|
  {
    if n == 0 then [] else CodesBelow(mask, n - 1) + if mask[n - 1] then [n - 1] else []
  }

  function CodesOf(mask: Mask): seq<nat> {
    CodesBelow(mask, |mask|)
  }

  method BuildMask(codes: seq<nat>) returns (mask: Mask)
    ensures mask == MaskOf(codes)
  {
    mask := NO_CODES;
    for i := 0 to |codes|
      invariant mask == MaskOf(codes[..i])
    {
      assert codes[..i + 1][..i] == codes[..i];
      mask := WithCode(mask, codes[i]);
    }
    assert codes[..|codes|] == codes;
  }

  method ListCodes(mask: Mask) returns (codes: seq<nat>)
    ensures codes == CodesOf(mask)
  {
    codes := [];
    if mask == NO_CODES {
      NoCodes(mask, |mask|);
      return;
    }
    for code := 0 to |mask|
      invariant codes == CodesBelow(mask, code)
    {
      if mask[code] {
        codes := codes + [code];
      }
    }
  }

  lemma {:induction false} NoCodes(mask: Mask, n: nat)
    requires mask == NO_CODES && n <= |mask|
    ensures CodesBelow(mask, n) == []
  {
    if n > 0 {
      NoCodes(mask, n - 1);
    }
  }

  /** A compiled mask accepts exactly the listed codes that fit it. */
  lemma {:induction false} MaskHasCodes(codes: seq<nat>, code: nat)
    ensures HasCode(MaskOf(codes), code) <==> code < 64 && code in codes
  {
    if codes != [] {
      var n := |codes| - 1;
      MaskHasCodes(codes[..n], code);
      assert codes == codes[..n] + [codes[n]];
    }
  }

  lemma {:induction false} CodesAreAscending(mask: Mask, n: nat)
    requires n <= |mask|
    ensures forall code: nat :: code in CodesBelow(mask, n) <==> code < n && HasCode(mask, code)
    ensures forall i, j :: 0 <= i < j < |CodesBelow(mask, n)| ==> CodesBelow(mask, n)[i] < CodesBelow(mask, n)[j]
  {
    if n > 0 {
      CodesAreAscending(mask, n - 1);
      var codes := CodesBelow(mask, n - 1);
      assert forall i :: 0 <= i < |codes| ==> codes[i] in codes;
    }
  }

  /** Decompiling a mask and compiling it again gives the mask back. */
  lemma MaskRoundTrip(mask: Mask)
    ensures MaskOf(CodesOf(mask)) == mask
  {
    hide MaskOf, CodesBelow;
    CodesAreAscending(mask, |mask|);
    forall code: nat | code < |mask|
      ensures MaskOf(CodesOf(mask))[code] == mask[code]
    {
      MaskHasCodes(CodesOf(mask), code);
      assert HasCode(mask, code) <==> mask[code];
      assert HasCode(MaskOf(CodesOf(mask)), code) <==> MaskOf(CodesOf(mask))[code];
    }
  }

  // ---------------------------------------------------------------- options and compiled records

  datatype RetryPolicy = RetryPolicy(maxAttempts: int, perTryTimeout: int, codes: seq<nat>)

  datatype ClockSource = WallClock | Injected(id: int)

  datatype Budget = Budget(ratio: real, min: int, window: int, now: ClockSource)

  datatype Options = Options(routing: string, mode: string, policy: RetryPolicy, budget: Budget)

  const BUDGET := "budget"
  const OFF := "off"

  const DEFAULT_OPTIONS :=
    Options("adaptive_p2c", BUDGET, RetryPolicy(2, 750_000_000, [UNAVAILABLE, DEADLINE_EXCEEDED]),
            Budget(0.15, 10, 10_000_000_000, WallClock))

  predicate ZeroBudget(b: Budget) {
    b.ratio == 0.0 && b.min == 0 && b.window == 0 && b.now == WallClock
  }

  function Normalize(o: Options): Options {
    Options(
      if o.routing == "" then DEFAULT_OPTIONS.routing else o.routing,
      if o.mode == "" then DEFAULT_OPTIONS.mode else o.mode,
      if o.policy.maxAttempts == 0 then DEFAULT_OPTIONS.policy else o.policy,
      if ZeroBudget(o.budget) then DEFAULT_OPTIONS.budget else o.budget)
  }

  predicate Normal(o: Options) {
    o.routing != "" && o.mode != "" && o.policy.maxAttempts != 0 && !ZeroBudget(o.budget)
  }

  /** Normalizing is what makes options normal, and leaves normal options alone. */
  lemma NormalizeIsNormal(o: Options)
    ensures Normal(Normalize(o)) && (Normalize(o) == o <==> Normal(o))
  {
  }

  datatype Retry = Retry(mode: string, maxAttempts: int, perTryTimeout: int, mask: Mask, budget: Budget)

  function AtLeastOne(attempts: int): int {
    if attempts <= 0 then 1 else attempts
  }

  function CompiledMask(codes: seq<nat>): Mask {
    if codes == [] then DEFAULT_MASK else MaskOf(codes)
  }

  function Compile(options: Options): Retry {
    var o := Normalize(options);
    Retry(o.mode, if o.mode == OFF then 1 else AtLeastOne(o.policy.maxAttempts), o.policy.perTryTimeout,
          CompiledMask(o.policy.codes), o.budget)
  }

  function ToPolicy(r: Retry): RetryPolicy {
    RetryPolicy(r.maxAttempts, r.perTryTimeout, CodesOf(r.mask))
  }

  /** A compiled record survives decompiling and compiling its mask again exactly when its mask is not empty. */
  lemma CompiledMaskRoundTrip(r: Retry)
    ensures CompiledMask(ToPolicy(r).codes) == r.mask <==> r.mask != NO_CODES
  {
    hide MaskOf, CodesBelow;
    MaskRoundTrip(r.mask);
    CodesAreAscending(r.mask, |r.mask|);
    if r.mask == NO_CODES {
      NoCodes(r.mask, |r.mask|);
      assert DEFAULT_MASK[UNAVAILABLE];
    }
    if CodesOf(r.mask) == [] {
      forall code: nat | code < 64
        ensures !r.mask[code]
      {
        assert HasCode(r.mask, code) <==> code in CodesOf(r.mask);
      }
      assert r.mask == NO_CODES;
    }
  }

  // ---------------------------------------------------------------- wire policies

  /** A retry policy message, possibly absent. */
  datatype Wire =
    | Absent
    | Sent(enabled: bool, maxAttempts: int, perTryTimeoutMillis: int, budgetRatio: real, minBudget: int, windowSeconds: int)

  predicate HasAnyField(w: Wire): (any: bool)
    ensures any <==> w.Sent? && w != Sent(false, 0, 0, 0.0, 0, 0)
  {
    w.Sent? && (w.enabled || w.maxAttempts != 0 || w.budgetRatio != 0.0 || w.minBudget != 0 || w.windowSeconds != 0
                || w.perTryTimeoutMillis != 0)
  }

  /** int64 multiplication. */
  function Wrapped(x: int): (y: int)
    ensures -0x8000_0000_0000_0000 <= y < 0x8000_0000_0000_0000
    ensures -0x8000_0000_0000_0000 <= x < 0x8000_0000_0000_0000 ==> y == x
  {
    (x + 0x8000_0000_0000_0000) % 0x1_0000_0000_0000_0000 - 0x8000_0000_0000_0000
  }

  const MILLISECOND := 1_000_000
  const SECOND := 1_000_000_000

  function Duration(count: int, unit: int): int {
    if count <= 0 then 0 else Wrapped(count * unit)
  }

  datatype Patch = NoPatch | Patch(enabled: bool, maxAttempts: int, perTryTimeout: int, ratio: real, min: int, window: int)

  function CompilePatch(w: Wire): Patch {
    if !HasAnyField(w) then NoPatch
    else Patch(w.enabled, w.maxAttempts, Duration(w.perTryTimeoutMillis, MILLISECOND), w.budgetRatio, w.minBudget,
               Duration(w.windowSeconds, SECOND))
  }

  function Patched(r: Retry, p: Patch): Retry {
    if p.NoPatch? then r
    else if !p.enabled then r.(mode := OFF, maxAttempts := 1)
    else Retry(BUDGET,
               if p.maxAttempts > 0 then p.maxAttempts else r.maxAttempts,
               if p.perTryTimeout > 0 then p.perTryTimeout else r.perTryTimeout,
               r.mask,
               Budget(if p.ratio > 0.0 then p.ratio else r.budget.ratio, if p.min > 0 then p.min else r.budget.min,
                      if p.window > 0 then p.window else r.budget.window, r.budget.now))
  }

  /** The reference: the policy rewrites the dial options. */
  function Rewritten(o: Options, w: Wire): Options {
    if !HasAnyField(w) then o
    else if !w.enabled then o.(mode := OFF, policy := o.policy.(maxAttempts := 1))
    else o.(mode := BUDGET,
            policy := RetryPolicy(
              if w.maxAttempts > 0 then w.maxAttempts else o.policy.maxAttempts,
              if w.perTryTimeoutMillis > 0 then Wrapped(w.perTryTimeoutMillis * MILLISECOND) else o.policy.perTryTimeout,
              o.policy.codes),
            budget := Budget(
              if w.budgetRatio > 0.0 then w.budgetRatio else o.budget.ratio,
              if w.minBudget > 0 then w.minBudget else o.budget.min,
              if w.windowSeconds > 0 then Wrapped(w.windowSeconds * SECOND) else o.budget.window,
              o.budget.now))
  }

  datatype MethodPolicy = MethodPolicy(name: string, idempotent: bool, timeoutMillis: int, retry: Wire)

  datatype CompiledMethod = CompiledMethod(idempotent: bool, timeout: int, retry: Patch)

  function CompileMethod(m: MethodPolicy): CompiledMethod {
    CompiledMethod(m.idempotent, Duration(m.timeoutMillis, MILLISECOND), CompilePatch(m.retry))
  }

  function PatchedByMethod(r: Retry, m: CompiledMethod): Retry {
    var t := if m.timeout > 0 then r.(perTryTimeout := m.timeout) else r;
    if m.retry.Patch? then Patched(t, m.retry)
    else if !m.idempotent then t.(mode := OFF, maxAttempts := 1) else t
  }

  function RewrittenByMethod(o: Options, m: MethodPolicy): Options {
    var t := if m.timeoutMillis > 0
      then o.(policy := o.policy.(perTryTimeout := Wrapped(m.timeoutMillis * MILLISECOND))) else o;
    if HasAnyField(m.retry) then Rewritten(t, m.retry)
    else if !m.idempotent then t.(mode := OFF, policy := t.policy.(maxAttempts := 1)) else t
  }

  // ---------------------------------------------------------------- what a message means

  /** Each option that is set is kept, and each that is unset takes its documented default. */
  lemma UnsetTakesDefault(o: Options)
    ensures var n := Normalize(o);
            && n.routing == (if o.routing != "" then o.routing else "adaptive_p2c")
            && n.mode == (if o.mode != "" then o.mode else "budget")
            && (if o.policy.maxAttempts != 0 then n.policy == o.policy
                else n.policy.maxAttempts == 2 && n.policy.perTryTimeout == 750 * MILLISECOND && n.policy.codes == [14, 4])
            && n.budget == if o.budget != Budget(0.0, 0, 0, WallClock) then o.budget else Budget(0.15, 10, 10 * SECOND, WallClock)
  {
  }

  /** What is compiled retries exactly the listed codes that fit a mask, or 14 and 4 when none is listed. */
  lemma CompiledCodes(o: Options, code: nat)
    requires o.policy.maxAttempts != 0
    ensures HasCode(Compile(o).mask, code)
        <==> if o.policy.codes == [] then code == 14 || code == 4 else code < 64 && code in o.policy.codes
  {
    MaskHasCodes(o.policy.codes, code);
  }

  /** A message that is absent, or says nothing, changes neither path. */
  lemma SilentMessage(o: Options, w: Wire)
    requires w.Absent? || w == Sent(false, 0, 0, 0.0, 0, 0)
    ensures Patched(Compile(o), CompilePatch(w)) == Compile(o) == Compile(Rewritten(o, w))
  {
  }

  /** A message that does not enable retries but says anything switches them off, with one attempt, on both paths. */
  lemma DisablingMessage(o: Options, w: Wire)
    requires Normal(o) && w.Sent? && !w.enabled && w != Sent(false, 0, 0, 0.0, 0, 0)
    ensures var r := Compile(o);
            Patched(r, CompilePatch(w)) == Retry("off", 1, r.perTryTimeout, r.mask, r.budget) == Compile(Rewritten(o, w))
  {
    hide CompiledMask;
  }

  /** A message that enables retries: each field it sets wins, each it leaves unset stays, and nothing else changes. */
  lemma EnablingMessage(r: Retry, w: Wire)
    requires Enabling(w) && InRange(w)
    ensures var p := Patched(r, CompilePatch(w));
            && p.mode == "budget" && p.mask == r.mask && p.budget.now == r.budget.now
            && p.maxAttempts == (if w.maxAttempts > 0 then w.maxAttempts else r.maxAttempts)
            && p.perTryTimeout == (if w.perTryTimeoutMillis > 0 then w.perTryTimeoutMillis * 1_000_000 else r.perTryTimeout)
            && p.budget.ratio == (if w.budgetRatio > 0.0 then w.budgetRatio else r.budget.ratio)
            && p.budget.min == (if w.minBudget > 0 then w.minBudget else r.budget.min)
            && p.budget.window == if w.windowSeconds > 0 then w.windowSeconds * 1_000_000_000 else r.budget.window
  {
    hide Wrapped;
  }

  /**
   A method's own message decides whether its calls are retried, whatever its service says; without one
   a method that is not idempotent is not retried, and an idempotent one follows its service.
   */
  lemma MethodDecides(r: Retry, w: Wire, m: MethodPolicy)
    requires InRange(m.retry) && m.timeoutMillis * 1_000_000 < 0x8000_0000_0000_0000
    ensures var service, p := Patched(r, CompilePatch(w)), PatchedBy(r, w, Some(m));
            var silent := m.retry.Absent? || m.retry == Sent(false, 0, 0, 0.0, 0, 0);
            && (Enabling(m.retry) ==> p.mode == "budget" && (m.retry.maxAttempts > 0 ==> p.maxAttempts == m.retry.maxAttempts))
            && (!Enabling(m.retry) && !(silent && m.idempotent) ==> p.mode == "off" && p.maxAttempts == 1)
            && (silent && m.idempotent ==> p == service.(perTryTimeout := p.perTryTimeout))
            && p.perTryTimeout == (if Enabling(m.retry) && m.retry.perTryTimeoutMillis > 0
                                   then m.retry.perTryTimeoutMillis * 1_000_000
                                   else if m.timeoutMillis > 0 then m.timeoutMillis * 1_000_000 else service.perTryTimeout)
  {
    hide Wrapped;
  }

  // ---------------------------------------------------------------- patching

  /** A duration that wraps round to nothing is skipped by the patch but written by the rewrite. */
  predicate WrapsHarmlessly(count: int, unit: int, current: int) {
    count > 0 && Wrapped(count * unit) <= 0 ==> Wrapped(count * unit) == current
  }

  /**
   Options whose attempt count is unset take the whole default policy when they are compiled. A message
   that sets the count and no timeout keeps that default on the compiled path, but the rewrite leaves
   the unset options' own timeout, so the paths differ whenever that is not the default one.
   */
  lemma UnsetOptionsDiffer(o: Options, w: Wire)
    requires o.policy.maxAttempts == 0 && o.policy.perTryTimeout != DEFAULT_OPTIONS.policy.perTryTimeout
    requires w.Sent? && w.enabled && w.maxAttempts > 0 && w.perTryTimeoutMillis <= 0
    ensures Patched(Compile(o), CompilePatch(w)) != Compile(Rewritten(o, w))
  {
    hide CompiledMask;
    assert Patched(Compile(o), CompilePatch(w)).perTryTimeout == DEFAULT_OPTIONS.policy.perTryTimeout;
    assert Compile(Rewritten(o, w)).perTryTimeout == o.policy.perTryTimeout;
  }

  /** Patching twice is patching once. */
  lemma PatchTwice(r: Retry, p: Patch)
    ensures Patched(Patched(r, p), p) == Patched(r, p)
  {
  }

  lemma MethodPatchTwice(r: Retry, m: CompiledMethod)
    ensures PatchedByMethod(PatchedByMethod(r, m), m) == PatchedByMethod(r, m)
  {
  }

  // ---------------------------------------------------------------- service and method policies together

  datatype Snapshot = Snapshot(retry: Wire, methods: map<string, MethodPolicy>)

  /** An entry without a name is filed under the method it names itself. */
  function Filed(methods: map<string, MethodPolicy>, key: string): string
    requires key in methods
  {
    if key == "" then methods[key].name else key
  }

  /** Compiles the method policies in whatever order the map hands them out; two entries may be filed under one name. */
  method CompileMethods(methods: map<string, MethodPolicy>) returns (compiled: map<string, CompiledMethod>)
    ensures compiled.Keys == set key | key in methods :: Filed(methods, key)
    ensures forall name :: name in compiled ==>
              exists key :: key in methods && Filed(methods, key) == name && compiled[name] == CompileMethod(methods[key])
  {
    hide CompileMethod;
    compiled := map[];
    var rest := methods.Keys;
    while rest != {}
      invariant rest <= methods.Keys
      invariant compiled.Keys == set key | key in methods.Keys - rest :: Filed(methods, key)
      invariant forall name :: name in compiled ==>
                  exists key :: key in methods && Filed(methods, key) == name && compiled[name] == CompileMethod(methods[key])
      decreases rest
    {
      var key :| key in rest;
      compiled := compiled[Filed(methods, key) := CompileMethod(methods[key])];
      rest := rest - {key};
    }
  }

  /** The compiled methods are the sent ones, name by name, when every entry has a key. */
  lemma KeyedMethods(methods: map<string, MethodPolicy>, compiled: map<string, CompiledMethod>)
    requires "" !in methods
    requires compiled.Keys == set key | key in methods :: Filed(methods, key)
    requires forall name :: name in compiled ==>
               exists key :: key in methods && Filed(methods, key) == name && compiled[name] == CompileMethod(methods[key])
    ensures compiled == map key | key in methods :: CompileMethod(methods[key])
  {
  }

  function PolicyFor(defaults: Retry, retry: Patch, methods: map<string, CompiledMethod>, name: string): Retry {
    var r := Patched(defaults, retry);
    if name in methods then PatchedByMethod(r, methods[name]) else r
  }

  function OptionsFor(o: Options, s: Snapshot, name: string): Options {
    var r := Rewritten(o, s.retry);
    if name in s.methods then RewrittenByMethod(r, s.methods[name]) else r
  }

  predicate Enabling(w: Wire) {
    w.Sent? && w.enabled
  }

  /** The durations that write the per-try timeout, in order, and those that write the budget window. */
  function TimeoutWrites(w: Wire, m: Option<MethodPolicy>): seq<int> {
    (if Enabling(w) then [w.perTryTimeoutMillis] else [])
    + match m
      case None => []
      case Some(m) => [m.timeoutMillis] + if Enabling(m.retry) then [m.retry.perTryTimeoutMillis] else []
  }

  function WindowWrites(w: Wire, m: Option<MethodPolicy>): seq<int> {
    (if Enabling(w) then [w.windowSeconds] else [])
    + if m.Some? && Enabling(m.value.retry) then [m.value.retry.windowSeconds] else []
  }

  /** What a patch makes of a duration: a count that is unset or wraps to nothing is skipped. */
  function Kept(count: int, unit: int, current: int): int {
    if Duration(count, unit) > 0 then Duration(count, unit) else current
  }

  /** What a rewrite makes of it: only an unset count is skipped. */
  function Written(count: int, unit: int, current: int): int {
    if count > 0 then Wrapped(count * unit) else current
  }

  function KeptAll(counts: seq<int>, unit: int, current: int): int {
    if counts == [] then current
    else Kept(counts[|counts| - 1], unit, KeptAll(counts[..|counts| - 1], unit, current))
  }

  function WrittenAll(counts: seq<int>, unit: int, current: int): int {
    if counts == [] then current
    else Written(counts[|counts| - 1], unit, WrittenAll(counts[..|counts| - 1], unit, current))
  }

  /** The last count that is set does not wrap to nothing, or wraps to exactly what the patches before it kept. */
  predicate LastWriteFits(counts: seq<int>, unit: int, current: int) {
    if counts == [] then true
    else
      var n := |counts| - 1;
      if counts[n] <= 0 then LastWriteFits(counts[..n], unit, current)
      else WrapsHarmlessly(counts[n], unit, KeptAll(counts[..n], unit, current))
  }

  lemma {:induction false} WritesAgree(counts: seq<int>, unit: int, current: int)
    ensures KeptAll(counts, unit, current) == WrittenAll(counts, unit, current) <==> LastWriteFits(counts, unit, current)
  {
    hide Wrapped;
    if counts != [] {
      WritesAgree(counts[..|counts| - 1], unit, current);
    }
  }

  /** The message switches retries on without an attempt count. */
  predicate Switches(w: Wire) {
    Enabling(w) && w.maxAttempts <= 0
  }

  /** Retries end up switched on with the attempt count of the options. */
  predicate CountFromOptions(w: Wire, m: Option<MethodPolicy>) {
    match m
    case None => Switches(w)
    case Some(m) =>
      if HasAnyField(m.retry) then Switches(m.retry) && (HasAnyField(w) ==> Switches(w))
      else m.idempotent && Switches(w)
  }

  /**
   When the compiled path and the reference agree: mode off has not pinned the attempt count that
   retries end up with, and neither duration's last write wraps to nothing.
   */
  predicate PolicyCommutes(o: Options, w: Wire, m: Option<MethodPolicy>) {
    && (o.mode == OFF && CountFromOptions(w, m) ==> o.policy.maxAttempts <= 1)
    && LastWriteFits(TimeoutWrites(w, m), MILLISECOND, o.policy.perTryTimeout)
    && LastWriteFits(WindowWrites(w, m), SECOND, o.budget.window)
  }

  function MethodOf(s: Snapshot, name: string): Option<MethodPolicy> {
    if name in s.methods then Some(s.methods[name]) else None
  }

  function PatchedBy(r: Retry, w: Wire, m: Option<MethodPolicy>): Retry {
    var p := Patched(r, CompilePatch(w));
    if m.None? then p else PatchedByMethod(p, CompileMethod(m.value))
  }

  function RewrittenBy(o: Options, w: Wire, m: Option<MethodPolicy>): Options {
    var p := Rewritten(o, w);
    if m.None? then p else RewrittenByMethod(p, m.value)
  }

  lemma OneWrite(a: int, unit: int, current: int)
    ensures KeptAll([a], unit, current) == Kept(a, unit, current) && WrittenAll([a], unit, current) == Written(a, unit, current)
  {
    assert [a][..0] == [];
  }

  lemma OneMoreWrite(counts: seq<int>, a: int, unit: int, current: int)
    ensures KeptAll(counts + [a], unit, current) == Kept(a, unit, KeptAll(counts, unit, current))
    ensures WrittenAll(counts + [a], unit, current) == Written(a, unit, WrittenAll(counts, unit, current))
  {
    assert (counts + [a])[..|counts|] == counts;
  }

  /** The durations both paths end up with. */
  lemma FinalTimeouts(o: Options, w: Wire, m: Option<MethodPolicy>)
    requires Normal(o)
    ensures PatchedBy(Compile(o), w, m).perTryTimeout == KeptAll(TimeoutWrites(w, m), MILLISECOND, o.policy.perTryTimeout)
    ensures RewrittenBy(o, w, m).policy.perTryTimeout == WrittenAll(TimeoutWrites(w, m), MILLISECOND, o.policy.perTryTimeout)
  {
    hide Wrapped, CompiledMask, KeptAll, WrittenAll;
    var current := o.policy.perTryTimeout;
    var first := if Enabling(w) then [w.perTryTimeoutMillis] else [];
    NoWrites(MILLISECOND, current);
    if Enabling(w) {
      OneWrite(w.perTryTimeoutMillis, MILLISECOND, current);
    }
    if m.Some? {
      OneMoreWrite(first, m.value.timeoutMillis, MILLISECOND, current);
      if Enabling(m.value.retry) {
        OneMoreWrite(first + [m.value.timeoutMillis], m.value.retry.perTryTimeoutMillis, MILLISECOND, current);
        assert TimeoutWrites(w, m) == first + [m.value.timeoutMillis] + [m.value.retry.perTryTimeoutMillis];
      } else {
        assert TimeoutWrites(w, m) == first + [m.value.timeoutMillis];
      }
    } else {
      assert TimeoutWrites(w, m) == first;
    }
  }

  lemma NoWrites(unit: int, current: int)
    ensures KeptAll([], unit, current) == current == WrittenAll([], unit, current)
  {
  }

  lemma FinalWindows(o: Options, w: Wire, m: Option<MethodPolicy>)
    requires Normal(o)
    ensures PatchedBy(Compile(o), w, m).budget.window == KeptAll(WindowWrites(w, m), SECOND, o.budget.window)
    ensures RewrittenBy(o, w, m).budget.window == WrittenAll(WindowWrites(w, m), SECOND, o.budget.window)
  {
    hide Wrapped, CompiledMask, KeptAll, WrittenAll;
    var current := o.budget.window;
    var first := if Enabling(w) then [w.windowSeconds] else [];
    NoWrites(SECOND, current);
    if Enabling(w) {
      OneWrite(w.windowSeconds, SECOND, current);
    }
    if m.Some? && Enabling(m.value.retry) {
      OneMoreWrite(first, m.value.retry.windowSeconds, SECOND, current);
      assert WindowWrites(w, m) == first + [m.value.retry.windowSeconds];
    } else {
      assert WindowWrites(w, m) == first;
    }
  }

  /** A compiled record and rewritten options agree on mode, codes and all of the budget but its window. */
  predicate Alike(l: Retry, r: Options) {
    && l.mode == r.mode != "" && r.routing != "" && r.policy.maxAttempts != 0
    && l.mask == CompiledMask(r.policy.codes)
    && l.budget == r.budget.(window := l.budget.window)
  }

  lemma PatchAlike(l: Retry, r: Options, w: Wire)
    requires Alike(l, r)
    ensures Alike(Patched(l, CompilePatch(w)), Rewritten(r, w))
  {
    hide Wrapped, CompiledMask, Duration;
  }

  lemma MethodAlike(l: Retry, r: Options, m: MethodPolicy)
    requires Alike(l, r)
    ensures Alike(PatchedByMethod(l, CompileMethod(m)), RewrittenByMethod(r, m))
  {
    hide Wrapped, CompiledMask, Duration, Patched, Rewritten;
    var l' := if Duration(m.timeoutMillis, MILLISECOND) > 0
      then l.(perTryTimeout := Duration(m.timeoutMillis, MILLISECOND)) else l;
    var r' := if m.timeoutMillis > 0
      then r.(policy := r.policy.(perTryTimeout := Wrapped(m.timeoutMillis * MILLISECOND))) else r;
    PatchAlike(l', r', m.retry);
  }

  lemma FinalRest(o: Options, w: Wire, m: Option<MethodPolicy>)
    requires Normal(o)
    ensures Alike(PatchedBy(Compile(o), w, m), RewrittenBy(o, w, m))
  {
    hide CompiledMask, Patched, Rewritten, PatchedByMethod, RewrittenByMethod, CompilePatch, CompileMethod;
    PatchAlike(Compile(o), o, w);
    if m.Some? {
      MethodAlike(Patched(Compile(o), CompilePatch(w)), Rewritten(o, w), m.value);
    }
  }

  lemma BudgetStaysSet(o: Options, w: Wire, m: Option<MethodPolicy>)
    requires Normal(o)
    ensures !ZeroBudget(PatchedBy(Compile(o), w, m).budget)
  {
    hide Wrapped, CompiledMask;
  }

  /** The attempt counts agree unless mode off has pinned one that comes from the options. */
  lemma FinalAttempts(o: Options, w: Wire, m: Option<MethodPolicy>)
    requires Normal(o)
    ensures var l, r := PatchedBy(Compile(o), w, m), RewrittenBy(o, w, m);
            l.maxAttempts == (if r.mode == OFF then 1 else AtLeastOne(r.policy.maxAttempts))
            <==> (o.mode == OFF && CountFromOptions(w, m) ==> o.policy.maxAttempts <= 1)
  {
    hide Wrapped, CompiledMask, Duration;
  }

  lemma CompileNormal(r: Options)
    requires r.mode != "" && r.routing != "" && r.policy.maxAttempts != 0
    ensures var c := Compile(r);
            && c.mode == r.mode && c.perTryTimeout == r.policy.perTryTimeout && c.mask == CompiledMask(r.policy.codes)
            && c.maxAttempts == (if r.mode == OFF then 1 else AtLeastOne(r.policy.maxAttempts))
            && c.budget == if ZeroBudget(r.budget) then DEFAULT_OPTIONS.budget else r.budget
  {
    hide CompiledMask;
  }

  /** Service and method policy, present or not: the two paths agree exactly when `PolicyCommutes` says so. */
  lemma PatchesAreRewrites(o: Options, w: Wire, m: Option<MethodPolicy>)
    requires Normal(o)
    ensures PatchedBy(Compile(o), w, m) == Compile(RewrittenBy(o, w, m)) <==> PolicyCommutes(o, w, m)
  {
    hide Compile, PatchedBy, RewrittenBy, TimeoutWrites, WindowWrites, CountFromOptions, LastWriteFits, KeptAll, WrittenAll;
    var l, r := PatchedBy(Compile(o), w, m), RewrittenBy(o, w, m);
    FinalTimeouts(o, w, m);
    FinalWindows(o, w, m);
    FinalRest(o, w, m);
    BudgetStaysSet(o, w, m);
    FinalAttempts(o, w, m);
    WritesAgree(TimeoutWrites(w, m), MILLISECOND, o.policy.perTryTimeout);
    WritesAgree(WindowWrites(w, m), SECOND, o.budget.window);
    CompileNormal(r);
    assert l.budget == Compile(r).budget <==> l.budget.window == r.budget.window;
  }

  /** A retry message alone. */
  lemma PatchIsRewrite(o: Options, w: Wire)
    requires Normal(o)
    ensures Patched(Compile(o), CompilePatch(w)) == Compile(Rewritten(o, w)) <==> PolicyCommutes(o, w, None)
  {
    hide Compile, CompilePatch, Patched, Rewritten, PolicyCommutes;
    PatchesAreRewrites(o, w, None);
  }

  /** A method policy alone. */
  lemma MethodPatchIsRewrite(o: Options, m: MethodPolicy)
    requires Normal(o)
    ensures PatchedByMethod(Compile(o), CompileMethod(m)) == Compile(RewrittenByMethod(o, m))
        <==> PolicyCommutes(o, Absent, Some(m))
  {
    hide Compile, CompileMethod, PatchedByMethod, RewrittenByMethod, PolicyCommutes;
    PatchesAreRewrites(o, Absent, Some(m));
  }

  /**
   Compiling once and patching per service and method means the same as rewriting the dial options by
   the service policy and the method policy and compiling the result, exactly when `PolicyCommutes`.
   */
  lemma CompiledPolicyIsReference(o: Options, s: Snapshot, name: string)
    requires Normal(o)
    ensures PolicyFor(Compile(o), CompilePatch(s.retry), map key | key in s.methods :: CompileMethod(s.methods[key]), name)
         == Compile(OptionsFor(o, s, name))
        <==> PolicyCommutes(o, s.retry, MethodOf(s, name))
  {
    hide Compile, CompileMethod, PatchedByMethod, RewrittenByMethod, PolicyCommutes, Patched, Rewritten, CompilePatch;
    PatchesAreRewrites(o, s.retry, MethodOf(s, name));
  }

  /** The durations of a message fit an int64. */
  predicate InRange(w: Wire) {
    w.Sent? ==> w.perTryTimeoutMillis * MILLISECOND < 0x8000_0000_0000_0000 && w.windowSeconds * SECOND < 0x8000_0000_0000_0000
  }

  /** What usually holds is enough: durations fit, and mode off comes with one attempt. */
  lemma UsuallyCommutes(o: Options, w: Wire, m: Option<MethodPolicy>)
    requires (o.mode == OFF ==> o.policy.maxAttempts <= 1) && InRange(w)
    requires m.Some? ==> InRange(m.value.retry) && m.value.timeoutMillis * MILLISECOND < 0x8000_0000_0000_0000
    ensures PolicyCommutes(o, w, m)
  {
    hide LastWriteFits, Wrapped;
    InRangeFits(TimeoutWrites(w, m), MILLISECOND, o.policy.perTryTimeout);
    InRangeFits(WindowWrites(w, m), SECOND, o.budget.window);
  }

  lemma {:induction false} InRangeFits(counts: seq<int>, unit: int, current: int)
    requires unit > 0 && forall i :: 0 <= i < |counts| ==> counts[i] * unit < 0x8000_0000_0000_0000
    ensures LastWriteFits(counts, unit, current)
  {
    if counts != [] {
      var n := |counts| - 1;
      InRangeFits(counts[..n], unit, current);
      if counts[n] > 0 {
        assert 0 < counts[n] * unit < 0x8000_0000_0000_0000;
        assert Wrapped(counts[n] * unit) == counts[n] * unit;
      }
    }
  }

  /** A timeout of 9223372036855 milliseconds wraps: the compiled path skips it, the reference turns it negative. */
  lemma WrappingTimeoutDiffers(o: Options)
    requires Normal(o) && o.policy.perTryTimeout >= 0
    ensures var w := Sent(true, 3, 9_223_372_036_855, 0.0, 0, 0);
            Patched(Compile(o), CompilePatch(w)) != Compile(Rewritten(o, w))
  {
    hide CompiledMask;
    var w := Sent(true, 3, 9_223_372_036_855, 0.0, 0, 0);
    assert 9_223_372_036_855 * MILLISECOND == 0x8000_0000_0000_0000 + 224192;
    assert Compile(Rewritten(o, w)).perTryTimeout == -0x8000_0000_0000_0000 + 224192;
  }

  /** Mode off with three attempts: switching retries on without a count gives one attempt compiled and three rewritten. */
  lemma PinnedCountDiffers(o: Options)
    requires Normal(o) && o.mode == OFF && o.policy.maxAttempts == 3
    ensures var w := Sent(true, 0, 0, 0.0, 0, 0);
            && Patched(Compile(o), CompilePatch(w)).maxAttempts == 1
            && Compile(Rewritten(o, w)).maxAttempts == 3
  {
    hide CompiledMask;
  }

  /** Applying the whole compiled policy again changes nothing. */
  lemma PolicyTwice(r: Retry, retry: Patch, methods: map<string, CompiledMethod>, name: string)
    ensures PolicyFor(PolicyFor(r, retry, methods, name), retry, methods, name) == PolicyFor(r, retry, methods, name)
  {
  }
}
