/** The soft-stale watchdog: a tick-driven state machine that reads the bridge's
    clocks, emits through the bridge, and forces reconnects at backed-off gaps
    (cmd/wad/watchdog.go; the clocks are those of internal/app/eventbridge.go). */
module Watchdog {
  import opened Text
  import EB = EventBridge

  const SOFT_STALE_MIN := 30
  const SOFT_STALE_MAX := 3600
  const RECOVER_COOLDOWN_DEFAULT := 300
  const BACKOFF_CAP_DEFAULT := 3600
  const BACKOFF_CAP_MAX := 86400
  const BACKOFF_SHIFT_MAX := 16

  function Min(a: int, b: int): int { if a < b then a else b }
  function Max(a: int, b: int): int { if a > b then a else b }

  /* ----- int64 arithmetic ----- */

  const INT64_MAX := 0x7fff_ffff_ffff_ffff
  const INT64_MIN := -0x8000_0000_0000_0000

  /** Two's-complement wrap-around. */
  function Wrap64(n: int): int { (n - INT64_MIN) % 0x1_0000_0000_0000_0000 + INT64_MIN }

  function Pow2(k: nat): nat { if k == 0 then 1 else 2 * Pow2(k - 1) }

  /** Go's x << k on int64. */
  function Shl64(x: int, k: nat): int { Wrap64(x * Pow2(k)) }

  /** strconv.Atoi, which refuses what does not fit. */
  function Atoi(s: string): Option<int> {
    match ParseInt(s)
    case Some(n) => if INT64_MIN <= n <= INT64_MAX then Some(n) else None
    case None => None
  }

  /* ----- configuration ----- */

  function ParseThreshold(raw: string): int {
    match Atoi(raw)
    case None => 0
    case Some(n) =>
      if n <= 0 then 0 else if n < SOFT_STALE_MIN then SOFT_STALE_MIN else if n > SOFT_STALE_MAX then SOFT_STALE_MAX else n
  }

  function ParseBackoffCap(raw: string, threshold: int): int {
    var cap := match Atoi(raw)
      case None => BACKOFF_CAP_DEFAULT
      case Some(n) => if n <= 0 then BACKOFF_CAP_DEFAULT else if n > BACKOFF_CAP_MAX then BACKOFF_CAP_MAX else n;
    if cap < threshold then threshold else cap
  }

  /** The recovery settings; non-positive cooldown and cap mean the defaults. */
  datatype Deps = Deps(threshold: int, cooldown: int, cap: int)

  /** What the parsers can produce. */
  predicate Legal(d: Deps) {
    SOFT_STALE_MIN <= d.threshold <= SOFT_STALE_MAX && d.cap <= BACKOFF_CAP_MAX && d.cooldown <= INT64_MAX
  }

  /** Whatever the environment says, an enabled watchdog runs with legal settings
      and a cap that the threshold does not exceed. */
  lemma ParsedIsLegal(threshold: string, cap: string, cooldown: int)
    requires cooldown <= INT64_MAX
    ensures var t := ParseThreshold(threshold);
      t == 0 || (Legal(Deps(t, cooldown, ParseBackoffCap(cap, t))) && t <= ParseBackoffCap(cap, t))
  {}

  /** The threshold, value by value: what is no int64 and what is not positive disables
      the watchdog, the rest is clamped. */
  lemma ThresholdExactly(raw: string, n: int)
    ensures ParseInt(raw).None? ==> ParseThreshold(raw) == 0
    ensures raw == IntText(n) ==>
      ParseThreshold(raw) == if n <= 0 || n >= 0x8000_0000_0000_0000 then 0 else if n < 30 then 30 else if n > 3600 then 3600 else n
  {
    IntRoundTrip(n);
  }

  /** So is the cap, with an hour in place of what is not a positive int64; it is never
      below the threshold. */
  lemma CapExactly(raw: string, n: int, threshold: int)
    ensures ParseInt(raw).None? ==> ParseBackoffCap(raw, threshold) == Max(3600, threshold)
    ensures raw == IntText(n) ==>
      ParseBackoffCap(raw, threshold) == Max(if n <= 0 || n >= 0x8000_0000_0000_0000 then 3600 else Min(n, 86400), threshold)
  {
    IntRoundTrip(n);
  }

  /* ----- backoff ----- */

  function EffectiveCooldown(d: Deps): int { if d.cooldown <= 0 then RECOVER_COOLDOWN_DEFAULT else d.cooldown }

  function EffectiveCap(d: Deps): int { Max(if d.cap <= 0 then BACKOFF_CAP_DEFAULT else d.cap, d.threshold) }

  /** recoverGapSec, as written: a clamped shift in int64. */
  function RecoverGap(d: Deps, streak: int): int {
    var cooldown := if d.cooldown <= 0 then RECOVER_COOLDOWN_DEFAULT else d.cooldown;
    if streak < 1 then cooldown
    else
      var shift := Min(streak - 1, BACKOFF_SHIFT_MAX);
      var b := Shl64(d.threshold, shift);
      var gap := if b > cooldown then b else cooldown;
      var cap := if d.cap <= 0 then BACKOFF_CAP_DEFAULT else d.cap;
      var cap' := if cap < d.threshold then d.threshold else cap;
      if gap > cap' then cap' else gap
  }

  /** The formula without clamp and without machine integers. */
  function Backoff(d: Deps, streak: nat): int
    requires streak >= 1
  {
    Min(Max(EffectiveCooldown(d), d.threshold * Pow2(streak - 1)), EffectiveCap(d))
  }

  lemma {:induction false} Pow2Monotone(a: nat, b: nat)
    requires a <= b
    ensures Pow2(a) <= Pow2(b)
    decreases b
  {
    if a < b {
      Pow2Monotone(a, b - 1);
    }
  }

  lemma Pow2Sixteen()
    ensures Pow2(16) == 65536
  {
    assert Pow2(4) == 16;
    assert Pow2(8) == 16 * Pow2(4);
    assert Pow2(12) == 16 * Pow2(8);
    assert Pow2(16) == 16 * Pow2(12);
  }

  lemma ProductMonotone(t: int, a: int, b: int)
    requires 0 <= t && a <= b
    ensures t * a <= t * b
  {}

  /** The shift never leaves int64, so the wrap-around is never seen. */
  lemma ShiftFits(t: int, k: nat)
    requires 0 <= t <= SOFT_STALE_MAX && k <= BACKOFF_SHIFT_MAX
    ensures Shl64(t, k) == t * Pow2(k)
  {
    Pow2Monotone(k, 16);
    Pow2Sixteen();
    ProductMonotone(t, 0, Pow2(k));
    ProductMonotone(t, Pow2(k), 65536);
  }

  /** The clamped int64 code computes the unbounded formula. */
  lemma BackoffRefines(d: Deps, streak: nat)
    requires Legal(d) && streak >= 1
    ensures RecoverGap(d, streak) == Backoff(d, streak)
    ensures RecoverGap(d, 0) == if d.cooldown <= 0 then 300 else d.cooldown
    ensures Backoff(d, streak) == Min(Max(RecoverGap(d, 0), d.threshold * Pow2(streak - 1)),
                                      Max(if d.cap <= 0 then 3600 else d.cap, d.threshold))
  {
    var k := Min(streak - 1, BACKOFF_SHIFT_MAX);
    ShiftFits(d.threshold, k);
    if streak - 1 > BACKOFF_SHIFT_MAX {
      Pow2Sixteen();
      Pow2Monotone(16, streak - 1);
      ProductMonotone(d.threshold, 65536, Pow2(streak - 1));
      ProductMonotone(65536, SOFT_STALE_MIN, d.threshold);
    }
  }

  /** Longer silence never shortens the gap, and every gap is positive. */
  lemma GapMonotone(d: Deps, s: nat, t: nat)
    requires Legal(d) && 1 <= s <= t
    ensures 0 < RecoverGap(d, s) <= RecoverGap(d, t) <= EffectiveCap(d)
  {
    BackoffRefines(d, s);
    BackoffRefines(d, t);
    Pow2Monotone(s - 1, t - 1);
    Pow2Monotone(0, s - 1);
    ProductMonotone(d.threshold, Pow2(s - 1), Pow2(t - 1));
    ProductMonotone(d.threshold, 1, Pow2(s - 1));
  }

  /* ----- the state machine ----- */

  datatype Health = Healthy | Stale | Unknown

  type Clocks = EB.Clocks

  datatype RecoverState = RecoverState(last: int, streak: nat)

  datatype Watch = Watch(current: Health, seq_: nat, rec: RecoverState)

  function SignalKind(h: Health): string { if h.Stale? then "state.softStale" else "state.restored" }

  function EventId(n: nat): string { "softstale-" + NatText(n) }

  /** softStaleStep's next state. */
  function NextHealth(d: Deps, c: Clocks, current: Health, up: bool, now: int): Health {
    if c.lastEvent == 0 then current
    else if !up then Unknown
    else if now - c.lastEvent >= d.threshold then Stale
    else Healthy
  }

  /** Whether softStaleStep emits, and what. */
  function Emission(current: Health, next: Health): Option<Health> {
    if next == current || current.Unknown? || next.Unknown? then None else Some(next)
  }

  /** maybeRecover */
  function MaybeRecover(d: Deps, rec: RecoverState, lastTraffic: int, now: int, edge: bool): (RecoverState, bool) {
    if !edge && rec.last == 0 then (rec, false)
    else
      var streak := if rec.last != 0 && lastTraffic > rec.last then 0 else rec.streak;
      if rec.last != 0 && now - rec.last < RecoverGap(d, streak) then (RecoverState(rec.last, streak), false)
      else (RecoverState(now, streak + 1), true)
  }

  datatype Sys = Sys(clocks: Clocks, watch: Watch)

  const BOOT: Sys := Sys(EB.Clocks(0, 0), Watch(Unknown, 0, RecoverState(0, 0)))

  datatype Input =
    | Upstream(kind: string, now: int)
    | Tick(now: int, up: bool)

  datatype Effect = Effect(sys: Sys, emitted: Option<Health>, recovered: bool)

  /** One input. `recover` says whether recovery is enabled; `silent` cuts the
      emission off the bridge. */
  function Step(d: Deps, recover: bool, silent: bool, s: Sys, i: Input): Effect {
    match i
    case Upstream(kind, now) => Effect(s.(clocks := EB.Touched(s.clocks, kind, now, true)), None, false)
    case Tick(now, up) =>
      var prev := s.watch.current;
      var next := NextHealth(d, s.clocks, prev, up, now);
      var emitted := Emission(prev, next);
      var n := if emitted.Some? then s.watch.seq_ + 1 else s.watch.seq_;
      var clocks := if emitted.Some? && !silent then EB.Touched(s.clocks, SignalKind(next), now, false) else s.clocks;
      if recover && next.Stale? && !prev.Unknown? then
        var (rec, fired) := MaybeRecover(d, s.watch.rec, clocks.lastTraffic, now, prev.Healthy?);
        Effect(Sys(clocks, Watch(next, n, rec)), emitted, fired)
      else Effect(Sys(clocks, Watch(next, n, s.watch.rec)), emitted, false)
  }

  /** One tick, rule by rule. Nothing happens before the first event; a websocket that is
      down forgets the classification; otherwise silence of at least the threshold is
      stale. The first classification is silent, every change between healthy and stale is
      emitted. A reconnect is forced on the change to stale, or while it stays stale after
      an earlier one, when the gap since the last one has passed. */
  lemma TickExactly(d: Deps, recover: bool, s: Sys, now: int, up: bool)
    ensures var w, e := s.watch, Step(d, recover, false, s, Tick(now, up));
      var next, silence := e.sys.watch.current, now - s.clocks.lastEvent;
      && next == (if s.clocks.lastEvent == 0 then w.current else if !up then Unknown
                  else if silence >= d.threshold then Stale else Healthy)
      && e.emitted == (if w.current.Healthy? && next.Stale? then Some(Stale)
                       else if w.current.Stale? && next.Healthy? then Some(Healthy) else None)
      && e.sys.watch.seq_ == w.seq_ + (if e.emitted.Some? then 1 else 0)
      && e.sys.clocks == s.clocks
    ensures var w, e := s.watch, Step(d, recover, false, s, Tick(now, up));
      var streak := if w.rec.last != 0 && s.clocks.lastTraffic > w.rec.last then 0 else w.rec.streak;
      && e.recovered == (recover && e.sys.watch.current.Stale?
                         && (w.current.Healthy? || (w.current.Stale? && w.rec.last != 0))
                         && (w.rec.last == 0 || now - w.rec.last >= RecoverGap(d, streak)))
      && (e.recovered ==> e.sys.watch.rec == RecoverState(now, streak + 1))
      && (!e.recovered ==> e.sys.watch.rec.last == w.rec.last && e.sys.watch.rec.streak in {streak, w.rec.streak})
  {}

  /** An upstream event moves the clocks: the second one only for organic traffic. */
  lemma UpstreamExactly(d: Deps, recover: bool, silent: bool, s: Sys, kind: string, now: int)
    ensures Step(d, recover, silent, s, Upstream(kind, now))
      == Effect(Sys(EB.Clocks(now, if kind == "message" || kind == "receipt" then now else s.clocks.lastTraffic), s.watch),
                None, false)
  {}

  /** The state before input `k`. */
  function Before(d: Deps, recover: bool, silent: bool, s: Sys, inputs: seq<Input>, k: nat): Sys
    requires k <= |inputs|
  {
    if k == 0 then s else Step(d, recover, silent, Before(d, recover, silent, s, inputs, k - 1), inputs[k - 1]).sys
  }

  /** What input `k` causes. */
  function At(d: Deps, recover: bool, s: Sys, inputs: seq<Input>, k: nat): Effect
    requires k < |inputs|
  {
    Step(d, recover, false, Before(d, recover, false, s, inputs, k), inputs[k])
  }

  /* ----- emissions ----- */

  /** Emitting through the bridge never changes what the watchdog sees or does. */
  lemma {:induction false} EmissionsDoNotFeedBack(d: Deps, recover: bool, inputs: seq<Input>, k: nat)
    requires k <= |inputs|
    ensures Before(d, recover, false, BOOT, inputs, k) == Before(d, recover, true, BOOT, inputs, k)
  {
    if k > 0 {
      EmissionsDoNotFeedBack(d, recover, inputs, k - 1);
    }
  }

  /** Tick `k` found the websocket down. */
  predicate SawDown(s: Sys, i: Input) { i.Tick? && !i.up && s.clocks.lastEvent != 0 }

  /** Without a down tick and without an emission a classification stays. */
  lemma {:induction false} ClassificationStays(d: Deps, recover: bool, inputs: seq<Input>, i: nat, j: nat)
    requires i <= j <= |inputs|
    requires !Before(d, recover, false, BOOT, inputs, i).watch.current.Unknown?
    requires forall k | i <= k < j :: At(d, recover, BOOT, inputs, k).emitted == None
    requires forall k | i <= k < j :: !SawDown(Before(d, recover, false, BOOT, inputs, k), inputs[k])
    ensures Before(d, recover, false, BOOT, inputs, j).watch.current == Before(d, recover, false, BOOT, inputs, i).watch.current
    decreases j - i
  {
    if i < j {
      assert At(d, recover, BOOT, inputs, i).emitted == None;
      assert !SawDown(Before(d, recover, false, BOOT, inputs, i), inputs[i]);
      ClassificationStays(d, recover, inputs, i + 1, j);
    }
  }

  /** Two consecutive emissions of one kind are separated by a tick that saw the
      websocket down. */
  lemma EmissionsAlternate(d: Deps, recover: bool, inputs: seq<Input>, i: nat, j: nat)
    requires i < j < |inputs|
    requires At(d, recover, BOOT, inputs, i).emitted.Some?
    requires At(d, recover, BOOT, inputs, i).emitted == At(d, recover, BOOT, inputs, j).emitted
    requires forall k | i < k < j :: At(d, recover, BOOT, inputs, k).emitted == None
    ensures exists k | i < k < j :: SawDown(Before(d, recover, false, BOOT, inputs, k), inputs[k])
  {
    if forall k | i < k < j :: !SawDown(Before(d, recover, false, BOOT, inputs, k), inputs[k]) {
      ClassificationStays(d, recover, inputs, i + 1, j);
      assert false;
    }
  }

  /* ----- recovery ----- */

  /** Tick `k` was a healthy-to-stale edge. */
  predicate Edge(d: Deps, recover: bool, inputs: seq<Input>, k: nat)
    requires k < |inputs|
  {
    && Before(d, recover, false, BOOT, inputs, k).watch.current.Healthy?
    && Before(d, recover, false, BOOT, inputs, k + 1).watch.current.Stale?
  }

  lemma {:induction false} RecoveredMeansEdge(d: Deps, recover: bool, inputs: seq<Input>, k: nat)
    requires k <= |inputs|
    requires Before(d, recover, false, BOOT, inputs, k).watch.rec != RecoverState(0, 0)
    ensures exists j | 0 <= j < k :: Edge(d, recover, inputs, j)
  {
    var s := Before(d, recover, false, BOOT, inputs, k - 1);
    if s.watch.rec != RecoverState(0, 0) {
      RecoveredMeansEdge(d, recover, inputs, k - 1);
    } else {
      assert Edge(d, recover, inputs, k - 1);
    }
  }

  /** No reconnect is forced before the run's first healthy-to-stale edge, so the
      silent first classification of a boot never triggers one. */
  lemma NoRecoverBeforeEdge(d: Deps, recover: bool, inputs: seq<Input>, k: nat)
    requires k < |inputs| && At(d, recover, BOOT, inputs, k).recovered
    ensures exists j | 0 <= j <= k :: Edge(d, recover, inputs, j)
  {
    if Before(d, recover, false, BOOT, inputs, k).watch.rec != RecoverState(0, 0) {
      RecoveredMeansEdge(d, recover, inputs, k);
    } else {
      assert Edge(d, recover, inputs, k);
    }
  }

  /** Clock readings are positive. */
  predicate Dated(inputs: seq<Input>) { forall i <- inputs :: i.now > 0 }

  /** When the last reconnect of the first `k` inputs was forced; 0 without one. */
  function LastRecover(d: Deps, inputs: seq<Input>, k: nat): int
    requires k <= |inputs|
  {
    if k == 0 then 0
    else if At(d, true, BOOT, inputs, k - 1).recovered then inputs[k - 1].now
    else LastRecover(d, inputs, k - 1)
  }

  /** Some tick before `k` forced a reconnect. */
  ghost predicate RecoveredBefore(d: Deps, inputs: seq<Input>, k: nat)
    requires k <= |inputs|
  {
    exists j | 0 <= j < k :: At(d, true, BOOT, inputs, j).recovered
  }

  lemma LastRecoverStep(d: Deps, s: Sys, i: Input)
    ensures var e := Step(d, true, false, s, i);
      e.sys.watch.rec.last == if e.recovered then i.now else s.watch.rec.last
  {}

  /** The state's clock of the last reconnect is the run's. */
  lemma {:induction false} LastRecoverKept(d: Deps, inputs: seq<Input>, k: nat)
    requires k <= |inputs|
    ensures Before(d, true, false, BOOT, inputs, k).watch.rec.last == LastRecover(d, inputs, k)
    decreases k
  {
    if k > 0 {
      LastRecoverKept(d, inputs, k - 1);
      LastRecoverStep(d, Before(d, true, false, BOOT, inputs, k - 1), inputs[k - 1]);
    }
  }

  /** It is zero exactly as long as no tick of the run has forced a reconnect. */
  lemma {:induction false} LastRecoverTells(d: Deps, inputs: seq<Input>, k: nat)
    requires Dated(inputs) && k <= |inputs|
    ensures LastRecover(d, inputs, k) != 0 <==> RecoveredBefore(d, inputs, k)
    decreases k
  {
    if k > 0 {
      LastRecoverTells(d, inputs, k - 1);
      assert inputs[k - 1] in inputs;
      RecoveredOneMore(d, inputs, k - 1);
    }
  }

  lemma RecoveredOneMore(d: Deps, inputs: seq<Input>, k: nat)
    requires k < |inputs|
    ensures RecoveredBefore(d, inputs, k + 1) <==> RecoveredBefore(d, inputs, k) || At(d, true, BOOT, inputs, k).recovered
  {
    if At(d, true, BOOT, inputs, k).recovered {
      assert RecoveredBefore(d, inputs, k + 1);
    }
    if RecoveredBefore(d, inputs, k) {
      RecoveredStays(d, inputs, k, k + 1);
    }
  }

  /** The gap in force at input `k`: organic traffic since the last reconnect starts the
      backoff anew. */
  function GapAt(d: Deps, inputs: seq<Input>, k: nat): int
    requires k <= |inputs|
  {
    var s := Before(d, true, false, BOOT, inputs, k);
    RecoverGap(d, if s.clocks.lastTraffic > LastRecover(d, inputs, k) then 0 else s.watch.rec.streak)
  }

  /** Tick `k` finds the connection stale, as the tick before it did. */
  predicate StaysStale(d: Deps, inputs: seq<Input>, k: nat)
    requires k < |inputs|
  {
    && inputs[k].Tick?
    && Before(d, true, false, BOOT, inputs, k).watch.current.Stale?
    && Before(d, true, false, BOOT, inputs, k + 1).watch.current.Stale?
  }

  /** The rule for re-fires, exactly, for every run: a tick that finds the connection
      still stale forces a reconnect if and only if an earlier tick of the run, in this
      stale episode or in any other, forced one and the gap since then has passed. */
  lemma RefireExactly(d: Deps, inputs: seq<Input>, k: nat)
    requires Dated(inputs) && k < |inputs| && StaysStale(d, inputs, k)
    ensures At(d, true, BOOT, inputs, k).recovered
       <==> RecoveredBefore(d, inputs, k) && inputs[k].now - LastRecover(d, inputs, k) >= GapAt(d, inputs, k)
  {
    LastRecoverKept(d, inputs, k);
    LastRecoverTells(d, inputs, k);
  }

  /** An edge forces a reconnect if and only if none was forced before in the run, or the
      gap since the last one has passed. */
  lemma EdgeFiresExactly(d: Deps, inputs: seq<Input>, k: nat)
    requires Dated(inputs) && k < |inputs| && Edge(d, true, inputs, k)
    ensures At(d, true, BOOT, inputs, k).recovered
       <==> !RecoveredBefore(d, inputs, k) || inputs[k].now - LastRecover(d, inputs, k) >= GapAt(d, inputs, k)
  {
    LastRecoverKept(d, inputs, k);
    LastRecoverTells(d, inputs, k);
  }

  /** A stale episode without an edge: entered at tick `i` from an unknown state, and
      stale at least until input `j`. */
  ghost predicate EdgelessEpisode(d: Deps, inputs: seq<Input>, i: nat, j: nat)
    requires i < j <= |inputs|
  {
    && Before(d, true, false, BOOT, inputs, i).watch.current.Unknown?
    && forall k | i < k <= j :: Before(d, true, false, BOOT, inputs, k).watch.current.Stale?
  }

  ghost predicate Silent(d: Deps, inputs: seq<Input>, i: nat, j: nat)
    requires i < j <= |inputs|
  {
    forall k | i <= k < j :: !At(d, true, BOOT, inputs, k).recovered
  }

  /** Every later tick of the episode comes within the gap of the last reconnect. */
  ghost predicate WithinGap(d: Deps, inputs: seq<Input>, i: nat, j: nat)
    requires i < j <= |inputs|
  {
    forall k | i < k < j && inputs[k].Tick? :: inputs[k].now - LastRecover(d, inputs, k) < GapAt(d, inputs, k)
  }

  /** An episode without an edge forces no reconnect if and only if the run had forced
      none before it, or all of its ticks come within the gap. So the rule is inert until
      the first edge of the run, not of the episode. */
  lemma EdgelessSilentExactly(d: Deps, inputs: seq<Input>, i: nat, j: nat)
    requires Dated(inputs) && i < j <= |inputs| && EdgelessEpisode(d, inputs, i, j)
    ensures Silent(d, inputs, i, j) <==> !RecoveredBefore(d, inputs, i) || WithinGap(d, inputs, i, j)
  {
    if Silent(d, inputs, i, j) && RecoveredBefore(d, inputs, i) {
      forall k | i < k < j && inputs[k].Tick?
        ensures inputs[k].now - LastRecover(d, inputs, k) < GapAt(d, inputs, k)
      {
        RecoveredStays(d, inputs, i, k);
        RefireExactly(d, inputs, k);
      }
    }
    if !RecoveredBefore(d, inputs, i) || WithinGap(d, inputs, i, j) {
      forall k | i <= k < j
        ensures !At(d, true, BOOT, inputs, k).recovered
      {
        EpisodeSilentAt(d, inputs, i, j, k);
      }
    }
  }

  lemma RecoveredStays(d: Deps, inputs: seq<Input>, i: nat, k: nat)
    requires i <= k <= |inputs| && RecoveredBefore(d, inputs, i)
    ensures RecoveredBefore(d, inputs, k)
  {
    var m :| 0 <= m < i && At(d, true, BOOT, inputs, m).recovered;
  }

  lemma {:induction false} EpisodeSilentAt(d: Deps, inputs: seq<Input>, i: nat, j: nat, k: nat)
    requires Dated(inputs) && i <= k < j <= |inputs| && EdgelessEpisode(d, inputs, i, j)
    requires !RecoveredBefore(d, inputs, i) || WithinGap(d, inputs, i, j)
    ensures !At(d, true, BOOT, inputs, k).recovered
    decreases k
  {
    if k > i && inputs[k].Tick? {
      assert StaysStale(d, inputs, k);
      RefireExactly(d, inputs, k);
      if RecoveredBefore(d, inputs, k) && !RecoveredBefore(d, inputs, i) {
        var m: nat :| m < k && At(d, true, BOOT, inputs, m).recovered;
        assert m >= i;
        EpisodeSilentAt(d, inputs, i, j, m);
      }
    }
  }

  const SETTINGS := Deps(30, 300, 3600)

  /** A stale episode that ends in a disconnect, then one entered silently. */
  const TWO_EPISODES := [
    Upstream("message", 100), Tick(110, true), Tick(130, true), Tick(140, false), Tick(150, true), Tick(500, true)]

  /** The rule is run-wide: here the last tick forces a reconnect in an episode that
      began without an edge, because an earlier episode had one. */
  lemma SilentEpisodeRefires()
    ensures At(SETTINGS, true, BOOT, TWO_EPISODES, 5).recovered
    ensures forall k | 3 <= k <= 5 :: !Edge(SETTINGS, true, TWO_EPISODES, k)
  {
    var d, i := SETTINGS, TWO_EPISODES;
    var c := EB.Clocks(100, 100);
    assert Before(d, true, false, BOOT, i, 1) == Sys(c, Watch(Unknown, 0, RecoverState(0, 0)));
    assert Before(d, true, false, BOOT, i, 2) == Sys(c, Watch(Healthy, 0, RecoverState(0, 0)));
    assert Before(d, true, false, BOOT, i, 3) == Sys(c, Watch(Stale, 1, RecoverState(130, 1)));
    assert Before(d, true, false, BOOT, i, 4) == Sys(c, Watch(Unknown, 1, RecoverState(130, 1)));
    assert Before(d, true, false, BOOT, i, 5) == Sys(c, Watch(Stale, 1, RecoverState(130, 1)));
    BackoffRefines(d, 1);
    assert Pow2(0) == 1;
  }

  /** gap(s) + ... + gap(t - 1) */
  function SumGaps(d: Deps, s: nat, t: nat): int
    requires 1 <= s <= t
  {
    if s == t then 0 else SumGaps(d, s, t - 1) + RecoverGap(d, t - 1)
  }

  /** Number of reconnects forced by the first `k` inputs. */
  function Recovers(d: Deps, s: Sys, inputs: seq<Input>, k: nat): nat
    requires k <= |inputs|
  {
    if k == 0 then 0 else Recovers(d, s, inputs, k - 1) + (if At(d, true, s, inputs, k - 1).recovered then 1 else 0)
  }

  predicate TrafficFree(inputs: seq<Input>) {
    forall i <- inputs :: i.Upstream? ==> !EB.IsTraffic(i.kind)
  }

  /** One input in silence: nothing happens to the recovery state, or one reconnect
      at its gap. */
  lemma QuietStep(d: Deps, s: Sys, i: Input)
    requires Legal(d) && (i.Upstream? ==> !EB.IsTraffic(i.kind))
    requires s.watch.rec.last > 0 && s.watch.rec.streak >= 1 && s.clocks.lastTraffic <= s.watch.rec.last
    ensures var e := Step(d, true, false, s, i); var rec, rec' := s.watch.rec, e.sys.watch.rec;
      && e.sys.clocks.lastTraffic == s.clocks.lastTraffic
      && (if e.recovered then rec'.streak == rec.streak + 1 && rec'.last - rec.last >= RecoverGap(d, rec.streak) > 0
          else rec' == rec)
  {
    GapMonotone(d, s.watch.rec.streak, s.watch.rec.streak);
  }

  /** After a reconnect, as long as no organic traffic arrives, each further one
      waits at least its gap: `n` more take at least the sum of `n` growing gaps. */
  lemma {:induction false} QuietRecoversSpread(d: Deps, s: Sys, inputs: seq<Input>, k: nat)
    requires Legal(d) && TrafficFree(inputs) && k <= |inputs|
    requires s.watch.rec.last > 0 && s.watch.rec.streak >= 1 && s.clocks.lastTraffic <= s.watch.rec.last
    ensures var t := Before(d, true, false, s, inputs, k);
      var n := Recovers(d, s, inputs, k);
      && t.watch.rec.streak == s.watch.rec.streak + n
      && t.watch.rec.last - s.watch.rec.last >= SumGaps(d, s.watch.rec.streak, s.watch.rec.streak + n)
      && t.watch.rec.last >= s.watch.rec.last
      && t.clocks.lastTraffic == s.clocks.lastTraffic
  {
    if k > 0 {
      QuietRecoversSpread(d, s, inputs, k - 1);
      var t := Before(d, true, false, s, inputs, k - 1);
      assert inputs[k - 1] in inputs;
      QuietStep(d, t, inputs[k - 1]);
    }
  }

  /** Hence `n` reconnects in silence take at least gap(1) + ... + gap(n). */
  lemma QuietRunBound(d: Deps, s: Sys, inputs: seq<Input>, k: nat)
    requires Legal(d) && TrafficFree(inputs) && k <= |inputs|
    requires s.watch.rec.last > 0 && s.watch.rec.streak >= 1 && s.clocks.lastTraffic <= s.watch.rec.last
    ensures Before(d, true, false, s, inputs, k).watch.rec.last - s.watch.rec.last
         >= SumGaps(d, 1, 1 + Recovers(d, s, inputs, k))
  {
    var n := Recovers(d, s, inputs, k);
    QuietRecoversSpread(d, s, inputs, k);
    SumGapsMonotone(d, s.watch.rec.streak, n);
  }

  lemma {:induction false} SumGapsMonotone(d: Deps, s: nat, n: nat)
    requires Legal(d) && s >= 1
    ensures SumGaps(d, 1, 1 + n) <= SumGaps(d, s, s + n)
  {
    if n > 0 {
      SumGapsMonotone(d, s, n - 1);
      GapMonotone(d, n, s + n - 1);
    }
  }

  /* ----- the code ----- */

  class SoftStaleWatchdog {
    const d: Deps
    const recover: bool
    const bridge: EB.EventBridge
    const self: EB.Goroutine       // the watchdog's own goroutine
    var current: Health
    var seq_: nat
    var lastRecoverUnix: int
    var quietStreak: nat

    constructor (d: Deps, recover: bool, bridge: EB.EventBridge, self: EB.Goroutine)
      ensures this.d == d && this.recover == recover && this.bridge == bridge && this.self == self
      ensures State() == Sys(bridge.clocks, BOOT.watch)
    {
      this.d, this.recover, this.bridge, this.self := d, recover, bridge, self;
      current, seq_, lastRecoverUnix, quietStreak := Unknown, 0, 0, 0;
    }

    function State(): Sys
      reads this, bridge
    {
      Sys(bridge.clocks, Watch(current, seq_, RecoverState(lastRecoverUnix, quietStreak)))
    }

    /** The bridge is sound and the watchdog is not in the middle of a dispatch. */
    ghost predicate Ready()
      reads this, bridge
    {
      bridge.Valid() && bridge.st.PhaseOf(self).Idle?
    }

    /** The event of an emission. */
    function Signals(emitted: Option<Health>, num: nat, n: nat): seq<EB.Event> {
      match emitted
      case None => []
      case Some(h) =>
        [EB.Event(num, if h.Stale? then "state.softStale" else "state.restored", "softstale-" + NatText(n), self)]
    }

    /** softStaleStep. An emission is a dispatch through the bridge: every subscriber that
        wants it gets it or loses it, and the clocks stay as they were. */
    method SoftStaleStep(up: bool, now: int) returns (emitted: Option<Health>)
      requires Ready()
      modifies this`current, this`seq_, bridge
      ensures Ready()
      ensures current == NextHealth(d, old(bridge.clocks), old(current), up, now)
      ensures emitted == Emission(old(current), current)
      ensures seq_ == if emitted.Some? then old(seq_) + 1 else old(seq_)
      ensures old(bridge.clocks).lastEvent != 0 && up ==>
        current == if now - old(bridge.clocks).lastEvent >= d.threshold then Stale else Healthy
      ensures emitted.Some? <==> old(current) != current && !old(current).Unknown? && !current.Unknown?
      ensures bridge.st.log == old(bridge.st.log) + Signals(emitted, bridge.counter, seq_)
      ensures bridge.clocks == old(bridge.clocks)
      ensures bridge.counter == if emitted.Some? then old(bridge.counter) + 1 else old(bridge.counter)
      ensures emitted.Some? ==>
        EB.FannedOut(bridge.st, EB.Event(bridge.counter, SignalKind(emitted.value), EventId(seq_), self))
    {
      var lastEvent := bridge.clocks.lastEvent;
      if lastEvent == 0 {
        return None;
      }
      if !up {
        current := Unknown;
        return None;
      }
      var stale := now - lastEvent;
      var next := if stale >= d.threshold then Stale else Healthy;
      if next == current {
        return None;
      }
      if current == Unknown {
        current := next;
        return None;
      }
      seq_ := seq_ + 1;
      bridge.EmitSynthetic(self, SignalKind(next), EventId(seq_), now);
      current := next;
      return Some(next);
    }

    /** maybeRecover, up to the reconnect it spawns. */
    method TryRecover(now: int, edge: bool) returns (fired: bool)
      modifies this`lastRecoverUnix, this`quietStreak
      ensures (RecoverState(lastRecoverUnix, quietStreak), fired)
           == MaybeRecover(d, old(RecoverState(lastRecoverUnix, quietStreak)), bridge.clocks.lastTraffic, now, edge)
    {
      if !edge && lastRecoverUnix == 0 {
        return false;
      }
      if lastRecoverUnix != 0 && bridge.clocks.lastTraffic > lastRecoverUnix {
        quietStreak := 0;
      }
      var gap := RecoverGap(d, quietStreak);
      if lastRecoverUnix != 0 && now - lastRecoverUnix < gap {
        return false;
      }
      lastRecoverUnix := now;
      quietStreak := quietStreak + 1;
      return true;
    }

    /** One turn of runSoftStaleWatchdog's loop. */
    method OnTick(now: int, up: bool) returns (emitted: Option<Health>, fired: bool)
      requires Ready()
      modifies this`current, this`seq_, this`lastRecoverUnix, this`quietStreak, bridge
      ensures Ready()
      ensures Effect(State(), emitted, fired) == Step(d, recover, false, old(State()), Tick(now, up))
      ensures bridge.st.log == old(bridge.st.log) + Signals(emitted, bridge.counter, seq_)
    {
      var prev := current;
      emitted := SoftStaleStep(up, now);
      fired := false;
      if !recover || current != Stale {
        return;
      }
      match prev {
        case Healthy => fired := TryRecover(now, true);
        case Stale => fired := TryRecover(now, false);
        case Unknown =>
      }
    }
  }
}
