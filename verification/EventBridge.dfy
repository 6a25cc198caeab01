/** The event fan-out: any number of dispatching goroutines stamp, push, snapshot
    and deliver at the same time, while subscribers come, read and go
    (internal/app/eventbridge.go). Each atomic section of the code is one action. */
module EventBridge {

  type Goroutine = nat
  type WaiterId = nat

  const EVENT_CHANNEL_BUFFER := 64

  /** `origin` is the dispatching goroutine; no code reads it. */
  datatype Event = Event(num: nat, kind: string, payload: string, origin: Goroutine)

  datatype Waiter = Waiter(filter: set<string>, cap: nat)

  predicate Matches(w: Waiter, kind: string) { w.filter == {} || kind in w.filter }

  /** How far a goroutine is in dispatch. */
  datatype Phase =
    | Idle
    | Stamped(event: Event)
    | Pushed(event: Event)
    | Delivering(event: Event, snapshot: seq<WaiterId>, next: nat)

  /** The bridge plus its history: every event stamped (`log`), pushed to the main
      channel, delivered to or dropped for a waiter, and each event's snapshot. */
  datatype Bridge = Bridge(
    seed: nat,
    log: seq<Event>,
    waiters: seq<WaiterId>,
    specs: map<WaiterId, Waiter>,
    out: seq<Event>,
    pushed: seq<Event>,
    chans: map<WaiterId, seq<Event>>,
    got: map<WaiterId, seq<Event>>,
    lost: map<WaiterId, seq<Event>>,
    snaps: map<nat, seq<WaiterId>>,
    phases: map<Goroutine, Phase>)
  {
    function Counter(): nat { seed + |log| }

    function PhaseOf(g: Goroutine): Phase { if g in phases then phases[g] else Idle }

    function At(g: Goroutine, p: Phase): Bridge { this.(phases := phases[g := p]) }
  }

  function Fresh(seed: nat): Bridge {
    Bridge(seed, [], [], map[], [], [], map[], map[], map[], map[], map[])
  }

  datatype Action =
    | Stamp(g: Goroutine, kind: string, payload: string)
    | Push(g: Goroutine)
    | Snapshot(g: Goroutine)
    | Deliver(g: Goroutine)
    | Register(w: WaiterId, filter: set<string>, cap: nat)
    | Cancel(w: WaiterId)
    | Receive(w: WaiterId)
    | ReceiveOut

  /** The first occurrence of `w` taken out. */
  function Without(ws: seq<WaiterId>, w: WaiterId): seq<WaiterId> {
    if ws == [] then [] else if ws[0] == w then ws[1..] else [ws[0]] + Without(ws[1..], w)
  }

  /** A non-blocking send: a full channel drops the event being sent. */
  function Send(s: Bridge, w: WaiterId, e: Event): Bridge
    requires w in s.specs && w in s.chans && w in s.got && w in s.lost
  {
    if !Matches(s.specs[w], e.kind) then s
    else if |s.chans[w]| < s.specs[w].cap then
      s.(chans := s.chans[w := s.chans[w] + [e]], got := s.got[w := s.got[w] + [e]])
    else s.(lost := s.lost[w := s.lost[w] + [e]])
  }

  /** One atomic section; an action that is not enabled changes nothing. */
  function Do(s: Bridge, a: Action): Bridge {
    match a
    case Stamp(g, kind, payload) =>
      if s.PhaseOf(g).Idle? then
        var e := Event(s.Counter() + 1, kind, payload, g);
        s.(log := s.log + [e]).At(g, Stamped(e))
      else s
    case Push(g) =>
      var p := s.PhaseOf(g);
      if p.Stamped? then
        (if |s.out| < EVENT_CHANNEL_BUFFER then s.(out := s.out + [p.event], pushed := s.pushed + [p.event]) else s)
          .At(g, Pushed(p.event))
      else s
    case Snapshot(g) =>
      var p := s.PhaseOf(g);
      if p.Pushed? then s.(snaps := s.snaps[p.event.num := s.waiters]).At(g, Delivering(p.event, s.waiters, 0))
      else s
    case Deliver(g) =>
      var p := s.PhaseOf(g);
      if p.Delivering? then
        if p.next >= |p.snapshot| then s.At(g, Idle)
        else
          var w := p.snapshot[p.next];
          if w in s.specs && w in s.chans && w in s.got && w in s.lost then
            Send(s, w, p.event).At(g, Delivering(p.event, p.snapshot, p.next + 1))
          else s
      else s
    case Register(w, filter, cap) =>
      if w in s.specs || cap == 0 then s
      else s.(waiters := s.waiters + [w], specs := s.specs[w := Waiter(filter, cap)],
              chans := s.chans[w := []], got := s.got[w := []], lost := s.lost[w := []])
    case Cancel(w) => s.(waiters := Without(s.waiters, w))
    case Receive(w) =>
      if w in s.chans && s.chans[w] != [] then s.(chans := s.chans[w := s.chans[w][1..]]) else s
    case ReceiveOut =>
      if s.out != [] then s.(out := s.out[1..]) else s
  }

  function Run(s: Bridge, actions: seq<Action>): Bridge {
    if actions == [] then s else Do(Run(s, actions[..|actions| - 1]), actions[|actions| - 1])
  }

  /* ----- the invariant ----- */

  ghost predicate Logged(s: Bridge, e: Event) {
    s.seed < e.num <= s.Counter() && s.log[e.num - s.seed - 1] == e
  }

  ghost predicate Distinct(ws: seq<WaiterId>) {
    forall i, j | 0 <= i < j < |ws| :: ws[i] != ws[j]
  }

  ghost predicate InvLog(s: Bridge) {
    forall k | 0 <= k < |s.log| :: s.log[k].num == s.seed + k + 1
  }

  ghost predicate InvKeys(s: Bridge) {
    && Distinct(s.waiters) && (forall w <- s.waiters :: w in s.specs)
    && s.chans.Keys == s.got.Keys == s.lost.Keys == s.specs.Keys
  }

  ghost predicate InvPhase(s: Bridge, g: Goroutine) {
    var p := s.PhaseOf(g);
    && (!p.Idle? ==>
          && Logged(s, p.event) && p.event.origin == g
          && (forall k | 0 <= k < |s.log| && s.log[k].origin == g :: s.log[k].num <= p.event.num))
    && (p.Stamped? || p.Pushed? ==> p.event.num !in s.snaps)
    && (p.Delivering? ==> p.event.num in s.snaps && s.snaps[p.event.num] == p.snapshot && p.next <= |p.snapshot|)
  }

  ghost predicate InvSnaps(s: Bridge) {
    forall n | n in s.snaps :: s.seed < n <= s.Counter() && Distinct(s.snaps[n]) && forall w <- s.snaps[n] :: w in s.specs
  }

  /** A goroutine in phase `p` has still to bring event number `n` to `w`. */
  ghost predicate Awaits(p: Phase, n: nat, w: WaiterId) {
    p.Delivering? && p.event.num == n && p.next <= |p.snapshot| && w in p.snapshot[p.next..]
  }

  ghost predicate Pending(s: Bridge, n: nat, w: WaiterId)
    requires s.seed < n <= s.Counter()
  {
    Awaits(s.PhaseOf(s.log[n - s.seed - 1].origin), n, w)
  }

  /** Event number `n` was snapshotted with `w` and is wanted by it. */
  ghost predicate IsDue(s: Bridge, n: nat, w: WaiterId)
    requires s.seed < n <= s.Counter()
  {
    w in s.specs && n in s.snaps && w in s.snaps[n] && Matches(s.specs[w], s.log[n - s.seed - 1].kind)
  }

  /** The fan-out of event number `n` has come past `w`. */
  ghost predicate Reached(s: Bridge, n: nat, w: WaiterId)
    requires s.seed < n <= s.Counter()
  {
    IsDue(s, n, w) && !Pending(s, n, w)
  }

  ghost function Nums(es: seq<Event>): set<nat> { set e | e in es :: e.num }

  /** Events of one goroutine appear in increasing order. */
  ghost predicate Ordered(es: seq<Event>) {
    forall i, j | 0 <= i < j < |es| && es[i].origin == es[j].origin :: es[i].num < es[j].num
  }

  ghost predicate AllLogged(s: Bridge, es: seq<Event>) { forall e <- es :: Logged(s, e) }

  /** `q` holds the last events of `all`. */
  ghost predicate Tail(q: seq<Event>, all: seq<Event>) { |q| <= |all| && q == all[|all| - |q|..] }

  ghost predicate HasStreams(s: Bridge, w: WaiterId) {
    w in s.specs && w in s.got && w in s.lost && w in s.chans
  }

  /** What was delivered to and dropped for one waiter. */
  ghost predicate InvStreams(s: Bridge, w: WaiterId)
    requires HasStreams(s, w)
  {
    && AllLogged(s, s.got[w]) && AllLogged(s, s.lost[w])
    && Ordered(s.got[w]) && Ordered(s.lost[w])
    && Nums(s.got[w]) !! Nums(s.lost[w])
    && Tail(s.chans[w], s.got[w]) && |s.chans[w]| <= s.specs[w].cap
  }

  /** Delivered or dropped exactly when the fan-out has come past the waiter. */
  ghost predicate InvSettled(s: Bridge, w: WaiterId)
    requires HasStreams(s, w)
  {
    forall n: nat | s.seed < n <= s.Counter() :: n in Nums(s.got[w]) + Nums(s.lost[w]) <==> Reached(s, n, w)
  }

  ghost predicate InvOut(s: Bridge) {
    && AllLogged(s, s.pushed) && Ordered(s.pushed)
    && Tail(s.out, s.pushed) && |s.out| <= EVENT_CHANNEL_BUFFER
  }

  /** An event still to be pushed has not been pushed. */
  ghost predicate InvUnpushed(s: Bridge, g: Goroutine) {
    s.PhaseOf(g).Stamped? ==> s.PhaseOf(g).event !in s.pushed
  }

  ghost predicate InvGoroutine(s: Bridge, g: Goroutine) { InvPhase(s, g) && InvUnpushed(s, g) }

  ghost predicate InvWaiter(s: Bridge, w: WaiterId) { HasStreams(s, w) && InvStreams(s, w) && InvSettled(s, w) }

  ghost predicate InvBase(s: Bridge) { InvLog(s) && InvKeys(s) && InvSnaps(s) && InvOut(s) }

  ghost predicate Inv(s: Bridge) {
    && InvBase(s)
    && (forall g: Goroutine :: InvGoroutine(s, g))
    && (forall w | w in s.specs :: InvWaiter(s, w))
  }

  /* ----- what a step of one goroutine leaves alone ----- */

  lemma StartInv(seed: nat)
    ensures Inv(Fresh(seed))
  {}

  /** `g` moved on; log, snapshots and registrations are the same. */
  ghost predicate StepOf(s: Bridge, s': Bridge, g: Goroutine) {
    && s'.seed == s.seed && s'.log == s.log && s'.snaps == s.snaps && s'.specs == s.specs && s'.waiters == s.waiters
    && forall h: Goroutine | h != g :: s'.PhaseOf(h) == s.PhaseOf(h)
  }

  lemma OthersKept(s: Bridge, s': Bridge, g: Goroutine, h: Goroutine)
    requires StepOf(s, s', g) && h != g && InvGoroutine(s, h)
    requires forall e <- s'.pushed :: e in s.pushed || e.origin == g
    ensures InvGoroutine(s', h)
  {}

  lemma WaiterKept(s: Bridge, s': Bridge, g: Goroutine, w: WaiterId)
    requires StepOf(s, s', g) && InvWaiter(s, w) && HasStreams(s', w)
    requires s'.got[w] == s.got[w] && s'.lost[w] == s.lost[w] && s'.chans[w] == s.chans[w]
    requires forall n: nat :: Awaits(s'.PhaseOf(g), n, w) <==> Awaits(s.PhaseOf(g), n, w)
    ensures InvWaiter(s', w)
  {
    StreamsKept(s, s', w);
    forall n: nat | s'.seed < n <= s'.Counter()
      ensures n in Nums(s'.got[w]) + Nums(s'.lost[w]) <==> Reached(s', n, w)
    {
      ReachedKept(s, s', g, n, w);
    }
  }

  lemma StreamsKept(s: Bridge, s': Bridge, w: WaiterId)
    requires HasStreams(s, w) && HasStreams(s', w) && InvStreams(s, w)
    requires s'.seed == s.seed && s'.log == s.log && s'.specs == s.specs
    requires s'.got[w] == s.got[w] && s'.lost[w] == s.lost[w] && s'.chans[w] == s.chans[w]
    ensures InvStreams(s', w)
  {
    LoggedKept(s, s', s.got[w]);
    LoggedKept(s, s', s.lost[w]);
  }

  lemma ReachedKept(s: Bridge, s': Bridge, g: Goroutine, n: nat, w: WaiterId)
    requires StepOf(s, s', g) && s.seed < n <= s.Counter()
    requires Awaits(s'.PhaseOf(g), n, w) <==> Awaits(s.PhaseOf(g), n, w)
    ensures Reached(s', n, w) <==> Reached(s, n, w)
  {}

  lemma LoggedKept(s: Bridge, s': Bridge, es: seq<Event>)
    requires s'.seed == s.seed && |s.log| <= |s'.log| && s'.log[..|s.log|] == s.log && AllLogged(s, es)
    ensures AllLogged(s', es)
  {
    forall e <- es
      ensures Logged(s', e)
    {
      assert s'.log[e.num - s.seed - 1] == s'.log[..|s.log|][e.num - s.seed - 1];
    }
  }

  lemma AppendOrdered(es: seq<Event>, e: Event)
    requires Ordered(es) && forall f <- es :: f.origin == e.origin ==> f.num < e.num
    ensures Ordered(es + [e])
  {
    var r := es + [e];
    forall i, j | 0 <= i < j < |r| && r[i].origin == r[j].origin
      ensures r[i].num < r[j].num
    {
      assert r[i] == es[i] && r[i] in es;
      assert j < |es| ==> r[j] == es[j];
    }
  }

  lemma AppendTail(q: seq<Event>, all: seq<Event>, e: Event)
    requires Tail(q, all)
    ensures Tail(q + [e], all + [e])
  {
    assert (all + [e])[|all| - |q|..] == all[|all| - |q|..] + [e];
  }

  lemma AppendNums(es: seq<Event>, e: Event)
    ensures Nums(es + [e]) == Nums(es) + {e.num}
  {}

  /** A goroutine's current event is the latest of its own. */
  lemma LatestOwn(s: Bridge, g: Goroutine, f: Event)
    requires InvPhase(s, g) && !s.PhaseOf(g).Idle? && Logged(s, f) && f.origin == g
    ensures f.num < s.PhaseOf(g).event.num || f == s.PhaseOf(g).event
  {
    assert s.log[f.num - s.seed - 1].origin == g;
  }

  /* ----- Stamp ----- */

  lemma StampWaiter(s: Bridge, s': Bridge, g: Goroutine, e: Event, w: WaiterId)
    requires InvSnaps(s) && InvWaiter(s, w) && s.PhaseOf(g).Idle?
    requires e.num == s.Counter() + 1 && s' == s.(log := s.log + [e]).At(g, Stamped(e))
    ensures InvWaiter(s', w)
  {
    LoggedKept(s, s', s.got[w]);
    LoggedKept(s, s', s.lost[w]);
    forall n: nat | s'.seed < n <= s'.Counter()
      ensures n in Nums(s'.got[w]) + Nums(s'.lost[w]) <==> Reached(s', n, w)
    {
      if n <= s.Counter() {
        assert s'.log[n - s.seed - 1] == s.log[n - s.seed - 1];
        assert Reached(s', n, w) <==> Reached(s, n, w);
      }
    }
  }

  lemma StampGoroutine(s: Bridge, s': Bridge, g: Goroutine, e: Event, h: Goroutine)
    requires InvLog(s) && InvSnaps(s) && InvOut(s) && InvGoroutine(s, h) && s.PhaseOf(g).Idle?
    requires e.num == s.Counter() + 1 && e.origin == g && s' == s.(log := s.log + [e]).At(g, Stamped(e))
    ensures InvGoroutine(s', h)
  {
    if h == g {
      assert s'.PhaseOf(g) == Stamped(e);
      assert forall f <- s.pushed :: Logged(s, f);
    } else {
      assert s'.PhaseOf(h) == s.PhaseOf(h);
    }
  }

  lemma StampKeeps(s: Bridge, g: Goroutine, kind: string, payload: string)
    requires Inv(s) && s.PhaseOf(g).Idle?
    ensures Inv(Do(s, Stamp(g, kind, payload)))
  {
    var e := Event(s.Counter() + 1, kind, payload, g);
    var s' := s.(log := s.log + [e]).At(g, Stamped(e));
    forall w | w in s'.specs
      ensures InvWaiter(s', w)
    {
      StampWaiter(s, s', g, e, w);
    }
    forall h: Goroutine
      ensures InvGoroutine(s', h)
    {
      StampGoroutine(s, s', g, e, h);
    }
    LoggedKept(s, s', s.pushed);
  }

  /* ----- Push ----- */

  lemma PushKeepsOut(s: Bridge, s': Bridge, g: Goroutine)
    requires InvOut(s) && InvGoroutine(s, g) && s.PhaseOf(g).Stamped?
    requires |s.out| < EVENT_CHANNEL_BUFFER && s'.seed == s.seed && s'.log == s.log
    requires s'.out == s.out + [s.PhaseOf(g).event] && s'.pushed == s.pushed + [s.PhaseOf(g).event]
    ensures InvOut(s')
  {
    var e := s.PhaseOf(g).event;
    forall f <- s.pushed | f.origin == g
      ensures f.num < e.num
    {
      LatestOwn(s, g, f);
    }
    AppendOrdered(s.pushed, e);
    AppendTail(s.out, s.pushed, e);
  }

  lemma PushKeeps(s: Bridge, g: Goroutine)
    requires Inv(s) && s.PhaseOf(g).Stamped?
    ensures Inv(Do(s, Push(g)))
  {
    var e := s.PhaseOf(g).event;
    var room := |s.out| < EVENT_CHANNEL_BUFFER;
    var s' := (if room then s.(out := s.out + [e], pushed := s.pushed + [e]) else s).At(g, Pushed(e));
    assert InvGoroutine(s, g);
    if room {
      PushKeepsOut(s, s', g);
    }
    StepEnds(s, s', g);
  }

  /** A step that neither was nor is a delivery keeps the rest. */
  lemma StepEnds(s: Bridge, s': Bridge, g: Goroutine)
    requires Inv(s) && StepOf(s, s', g) && InvOut(s') && InvGoroutine(s', g)
    requires forall e <- s'.pushed :: e in s.pushed || e.origin == g
    requires s'.chans == s.chans && s'.got == s.got && s'.lost == s.lost
    requires forall n: nat, w :: Awaits(s'.PhaseOf(g), n, w) <==> Awaits(s.PhaseOf(g), n, w)
    ensures Inv(s')
  {
    forall w | w in s'.specs
      ensures InvWaiter(s', w)
    {
      WaiterKept(s, s', g, w);
    }
    forall h: Goroutine
      ensures InvGoroutine(s', h)
    {
      if h != g { OthersKept(s, s', g, h); }
    }
  }

  /* ----- Snapshot ----- */

  lemma SnapshotWaiter(s: Bridge, s': Bridge, g: Goroutine, w: WaiterId)
    requires InvWaiter(s, w) && InvGoroutine(s, g) && s.PhaseOf(g).Pushed?
    requires var e := s.PhaseOf(g).event; s' == s.(snaps := s.snaps[e.num := s.waiters]).At(g, Delivering(e, s.waiters, 0))
    ensures InvWaiter(s', w)
  {
    var e := s.PhaseOf(g).event;
    assert s.waiters[0..] == s.waiters;
    StreamsKept(s, s', w);
    forall n: nat | s'.seed < n <= s'.Counter()
      ensures n in Nums(s'.got[w]) + Nums(s'.lost[w]) <==> Reached(s', n, w)
    {
      if n == e.num {
        assert !Reached(s, n, w);
        assert IsDue(s', n, w) ==> Awaits(s'.PhaseOf(g), n, w);
      } else {
        assert Reached(s', n, w) <==> Reached(s, n, w);
      }
    }
  }

  lemma SnapshotGoroutine(s: Bridge, s': Bridge, g: Goroutine, h: Goroutine)
    requires InvGoroutine(s, g) && InvGoroutine(s, h) && s.PhaseOf(g).Pushed?
    requires var e := s.PhaseOf(g).event; s' == s.(snaps := s.snaps[e.num := s.waiters]).At(g, Delivering(e, s.waiters, 0))
    ensures InvGoroutine(s', h)
  {
    if h != g {
      assert s'.PhaseOf(h) == s.PhaseOf(h);
      assert !s.PhaseOf(h).Idle? ==> s.PhaseOf(h).event.num != s.PhaseOf(g).event.num;
    }
  }

  lemma SnapshotKeeps(s: Bridge, g: Goroutine)
    requires Inv(s) && s.PhaseOf(g).Pushed?
    ensures Inv(Do(s, Snapshot(g)))
  {
    var e := s.PhaseOf(g).event;
    var s' := s.(snaps := s.snaps[e.num := s.waiters]).At(g, Delivering(e, s.waiters, 0));
    assert InvGoroutine(s, g);
    forall w | w in s'.specs
      ensures InvWaiter(s', w)
    {
      SnapshotWaiter(s, s', g, w);
    }
    forall h: Goroutine
      ensures InvGoroutine(s', h)
    {
      SnapshotGoroutine(s, s', g, h);
    }
    LoggedKept(s, s', s.pushed);
  }

  /* ----- Deliver ----- */

  /** Past the waiter whose turn it was, nothing else changes. */
  lemma AwaitsNext(p: Phase, n: nat, v: WaiterId)
    requires p.Delivering? && p.next < |p.snapshot| && Distinct(p.snapshot)
    ensures Awaits(Delivering(p.event, p.snapshot, p.next + 1), n, v)
       <==> Awaits(p, n, v) && v != p.snapshot[p.next]
    ensures Awaits(p, p.event.num, p.snapshot[p.next])
  {
    assert p.snapshot[p.next..] == [p.snapshot[p.next]] + p.snapshot[p.next + 1..];
  }

  lemma DeliverGoroutine(s: Bridge, s': Bridge, g: Goroutine)
    requires InvGoroutine(s, g) && StepOf(s, s', g) && s.PhaseOf(g).Delivering?
    requires s.PhaseOf(g).next < |s.PhaseOf(g).snapshot|
    requires var p := s.PhaseOf(g); s'.PhaseOf(g) == Delivering(p.event, p.snapshot, p.next + 1)
    ensures InvGoroutine(s', g)
  {}

  /** `e` may still go to `w`. */
  ghost predicate MayReach(s: Bridge, w: WaiterId, e: Event)
    requires HasStreams(s, w)
  {
    && Logged(s, e) && e.num !in Nums(s.got[w]) + Nums(s.lost[w])
    && forall f | f in s.got[w] || f in s.lost[w] :: f.origin == e.origin ==> f.num < e.num
  }

  lemma SendGot(s: Bridge, s': Bridge, w: WaiterId, e: Event)
    requires HasStreams(s, w) && InvStreams(s, w) && MayReach(s, w, e) && |s.chans[w]| < s.specs[w].cap
    requires s' == s.(chans := s.chans[w := s.chans[w] + [e]], got := s.got[w := s.got[w] + [e]])
    ensures InvStreams(s', w) && Nums(s'.got[w]) == Nums(s.got[w]) + {e.num}
  {
    AppendOrdered(s.got[w], e);
    AppendNums(s.got[w], e);
    AppendTail(s.chans[w], s.got[w], e);
  }

  lemma SendLost(s: Bridge, s': Bridge, w: WaiterId, e: Event)
    requires HasStreams(s, w) && InvStreams(s, w) && MayReach(s, w, e)
    requires s' == s.(lost := s.lost[w := s.lost[w] + [e]])
    ensures InvStreams(s', w) && Nums(s'.lost[w]) == Nums(s.lost[w]) + {e.num}
  {
    AppendOrdered(s.lost[w], e);
    AppendNums(s.lost[w], e);
  }

  lemma SendStreams(s: Bridge, w: WaiterId, e: Event)
    requires HasStreams(s, w) && InvStreams(s, w) && MayReach(s, w, e)
    ensures var s' := Send(s, w, e);
      && HasStreams(s', w) && InvStreams(s', w)
      && Nums(s'.got[w]) + Nums(s'.lost[w])
         == Nums(s.got[w]) + Nums(s.lost[w]) + (if Matches(s.specs[w], e.kind) then {e.num} else {})
  {
    var s' := Send(s, w, e);
    if Matches(s.specs[w], e.kind) {
      if |s.chans[w]| < s.specs[w].cap { SendGot(s, s', w, e); } else { SendLost(s, s', w, e); }
    }
  }

  /** The waiter whose turn it is. */
  lemma DeliverTurn(s: Bridge, s': Bridge, g: Goroutine, w: WaiterId)
    requires InvGoroutine(s, g) && InvSnaps(s) && InvWaiter(s, w) && s.PhaseOf(g).Delivering?
    requires s.PhaseOf(g).next < |s.PhaseOf(g).snapshot| && w == s.PhaseOf(g).snapshot[s.PhaseOf(g).next]
    requires var p := s.PhaseOf(g); s' == Send(s, w, p.event).At(g, Delivering(p.event, p.snapshot, p.next + 1))
    ensures InvWaiter(s', w)
  {
    var p := s.PhaseOf(g);
    var e := p.event;
    AwaitsNext(p, e.num, w);
    assert w in s.snaps[e.num];
    assert !Reached(s, e.num, w);
    OwnEarlier(s, g, w);
    SendStreams(s, w, e);
    var t := Send(s, w, e);
    StreamsKept(t, s', w);
    forall n: nat | s'.seed < n <= s'.Counter()
      ensures n in Nums(s'.got[w]) + Nums(s'.lost[w]) <==> Reached(s', n, w)
    {
      if n != e.num {
        ReachedKept(s, s', g, n, w);
      }
    }
  }

  lemma OwnEarlier(s: Bridge, g: Goroutine, w: WaiterId)
    requires InvGoroutine(s, g) && HasStreams(s, w) && InvStreams(s, w) && !s.PhaseOf(g).Idle?
    requires s.PhaseOf(g).event.num !in Nums(s.got[w]) + Nums(s.lost[w])
    ensures MayReach(s, w, s.PhaseOf(g).event)
  {
    forall f | (f in s.got[w] || f in s.lost[w]) && f.origin == g
      ensures f.num < s.PhaseOf(g).event.num
    {
      LatestOwn(s, g, f);
      assert f.num in Nums(s.got[w]) + Nums(s.lost[w]);
    }
  }

  lemma DeliverOther(s: Bridge, s': Bridge, g: Goroutine, w: WaiterId, v: WaiterId)
    requires InvGoroutine(s, g) && InvSnaps(s) && InvWaiter(s, v) && s.PhaseOf(g).Delivering? && v != w
    requires s.PhaseOf(g).next < |s.PhaseOf(g).snapshot| && w == s.PhaseOf(g).snapshot[s.PhaseOf(g).next]
    requires HasStreams(s, w)
    requires var p := s.PhaseOf(g); s' == Send(s, w, p.event).At(g, Delivering(p.event, p.snapshot, p.next + 1))
    ensures InvWaiter(s', v)
  {
    var p := s.PhaseOf(g);
    forall n: nat
      ensures Awaits(s'.PhaseOf(g), n, v) <==> Awaits(p, n, v)
    {
      AwaitsNext(p, n, v);
    }
    WaiterKept(s, s', g, v);
  }

  lemma DeliverIs(s: Bridge, g: Goroutine)
    requires InvKeys(s) && InvSnaps(s) && InvGoroutine(s, g)
    requires s.PhaseOf(g).Delivering? && s.PhaseOf(g).next < |s.PhaseOf(g).snapshot|
    ensures var p := s.PhaseOf(g); var w := p.snapshot[p.next];
      w in s.specs && HasStreams(s, w)
      && Do(s, Deliver(g)) == Send(s, w, p.event).At(g, Delivering(p.event, p.snapshot, p.next + 1))
  {
    var p := s.PhaseOf(g);
    assert p.snapshot[p.next] in s.snaps[p.event.num];
  }

  lemma SendFrame(s: Bridge, w: WaiterId, e: Event)
    requires HasStreams(s, w)
    ensures var t := Send(s, w, e);
      && t == s.(chans := t.chans, got := t.got, lost := t.lost)
      && t.chans.Keys == s.chans.Keys && t.got.Keys == s.got.Keys && t.lost.Keys == s.lost.Keys
  {}

  lemma DeliverStep(s: Bridge, t: Bridge, s': Bridge, g: Goroutine)
    requires InvBase(s) && s' == t.At(g, s'.PhaseOf(g))
    requires t == s.(chans := t.chans, got := t.got, lost := t.lost)
    requires t.chans.Keys == s.chans.Keys && t.got.Keys == s.got.Keys && t.lost.Keys == s.lost.Keys
    ensures InvBase(s') && StepOf(s, s', g) && s'.pushed == s.pushed
  {
    LoggedKept(s, s', s.pushed);
  }

  lemma DeliverKeeps(s: Bridge, g: Goroutine)
    requires Inv(s) && s.PhaseOf(g).Delivering? && s.PhaseOf(g).next < |s.PhaseOf(g).snapshot|
    ensures Inv(Do(s, Deliver(g)))
  {
    var p := s.PhaseOf(g);
    var w := p.snapshot[p.next];
    assert InvGoroutine(s, g);
    DeliverIs(s, g);
    var s' := Do(s, Deliver(g));
    SendFrame(s, w, p.event);
    DeliverStep(s, Send(s, w, p.event), s', g);
    forall v | v in s'.specs
      ensures InvWaiter(s', v)
    {
      assert InvWaiter(s, v);
      if v == w { DeliverTurn(s, s', g, w); } else { DeliverOther(s, s', g, w, v); }
    }
    forall h: Goroutine
      ensures InvGoroutine(s', h)
    {
      if h == g { DeliverGoroutine(s, s', g); } else { OthersKept(s, s', g, h); }
    }
  }

  lemma FinishKeeps(s: Bridge, g: Goroutine)
    requires Inv(s) && s.PhaseOf(g).Delivering? && s.PhaseOf(g).next >= |s.PhaseOf(g).snapshot|
    ensures Inv(Do(s, Deliver(g)))
  {
    var s' := s.At(g, Idle);
    assert InvGoroutine(s, g);
    assert s.PhaseOf(g).snapshot[|s.PhaseOf(g).snapshot|..] == [];
    LoggedKept(s, s', s.pushed);
    StepEnds(s, s', g);
  }

  /* ----- subscribers ----- */

  lemma {:induction false} WithoutDistinct(ws: seq<WaiterId>, w: WaiterId)
    requires Distinct(ws)
    ensures Distinct(Without(ws, w))
    ensures forall v :: v in Without(ws, w) <==> v in ws && v != w
  {
    if ws != [] {
      var rest := ws[1..];
      assert forall v :: v in ws <==> v == ws[0] || v in rest;
      assert ws[0] !in rest;
      if ws[0] != w {
        WithoutDistinct(rest, w);
        ConsDistinct(ws[0], Without(rest, w));
      }
    }
  }

  lemma ConsDistinct(v: WaiterId, ws: seq<WaiterId>)
    requires Distinct(ws) && v !in ws
    ensures Distinct([v] + ws)
    ensures forall u :: u in [v] + ws <==> u == v || u in ws
  {}

  /** A waiter's view when the log, the snapshots and the phases are the same. */
  lemma BystanderKept(s: Bridge, s': Bridge, w: WaiterId)
    requires InvWaiter(s, w) && HasStreams(s', w)
    requires s'.seed == s.seed && s'.log == s.log && s'.snaps == s.snaps && s'.phases == s.phases
    requires s'.specs[w] == s.specs[w] && s'.got[w] == s.got[w] && s'.lost[w] == s.lost[w] && s'.chans[w] == s.chans[w]
    ensures InvWaiter(s', w)
  {
    LoggedKept(s, s', s.got[w]);
    LoggedKept(s, s', s.lost[w]);
    forall n: nat | s'.seed < n <= s'.Counter()
      ensures n in Nums(s'.got[w]) + Nums(s'.lost[w]) <==> Reached(s', n, w)
    {
      assert Reached(s', n, w) <==> Reached(s, n, w);
    }
  }

  lemma GoroutinesKept(s: Bridge, s': Bridge)
    requires forall g: Goroutine :: InvGoroutine(s, g)
    requires s'.seed == s.seed && s'.log == s.log && s'.snaps == s.snaps && s'.phases == s.phases && s'.pushed == s.pushed
    ensures forall g: Goroutine :: InvGoroutine(s', g)
  {
    forall g: Goroutine
      ensures InvGoroutine(s', g)
    {
      assert InvGoroutine(s, g);
    }
  }

  lemma RegisterKeeps(s: Bridge, w: WaiterId, filter: set<string>, cap: nat)
    requires Inv(s) && w !in s.specs && cap > 0
    ensures Inv(Do(s, Register(w, filter, cap)))
  {
    var s' := Do(s, Register(w, filter, cap));
    GoroutinesKept(s, s');
    LoggedKept(s, s', s.pushed);
    forall v | v in s'.specs
      ensures InvWaiter(s', v)
    {
      if v != w {
        BystanderKept(s, s', v);
      } else {
        assert forall n | n in s.snaps :: w !in s.snaps[n];
      }
    }
  }

  lemma CancelKeeps(s: Bridge, w: WaiterId)
    requires Inv(s)
    ensures Inv(Do(s, Cancel(w)))
  {
    var s' := Do(s, Cancel(w));
    WithoutDistinct(s.waiters, w);
    GoroutinesKept(s, s');
    LoggedKept(s, s', s.pushed);
    forall v | v in s'.specs
      ensures InvWaiter(s', v)
    {
      BystanderKept(s, s', v);
    }
  }

  lemma TailTail(q: seq<Event>, all: seq<Event>)
    requires Tail(q, all) && q != []
    ensures Tail(q[1..], all)
  {}

  lemma ReceiveKeeps(s: Bridge, w: WaiterId)
    requires Inv(s) && w in s.chans && s.chans[w] != []
    ensures Inv(Do(s, Receive(w)))
  {
    var s' := s.(chans := s.chans[w := s.chans[w][1..]]);
    GoroutinesKept(s, s');
    LoggedKept(s, s', s.pushed);
    assert InvWaiter(s, w);
    TailTail(s.chans[w], s.got[w]);
    forall v | v in s'.specs
      ensures InvWaiter(s', v)
    {
      if v != w {
        BystanderKept(s, s', v);
      } else {
        ReaderKept(s, s', w);
      }
    }
  }

  lemma ReaderKept(s: Bridge, s': Bridge, w: WaiterId)
    requires InvWaiter(s, w) && s.chans[w] != [] && s' == s.(chans := s.chans[w := s.chans[w][1..]])
    ensures InvWaiter(s', w)
  {
    TailTail(s.chans[w], s.got[w]);
    LoggedKept(s, s', s.got[w]);
    LoggedKept(s, s', s.lost[w]);
    forall n: nat | s'.seed < n <= s'.Counter()
      ensures n in Nums(s'.got[w]) + Nums(s'.lost[w]) <==> Reached(s', n, w)
    {
      assert Reached(s', n, w) <==> Reached(s, n, w);
    }
  }

  lemma ReceiveOutKeeps(s: Bridge)
    requires Inv(s) && s.out != []
    ensures Inv(Do(s, ReceiveOut))
  {
    var s' := s.(out := s.out[1..]);
    GoroutinesKept(s, s');
    LoggedKept(s, s', s.pushed);
    TailTail(s.out, s.pushed);
    forall v | v in s'.specs
      ensures InvWaiter(s', v)
    {
      BystanderKept(s, s', v);
    }
  }

  lemma ActionKeeps(s: Bridge, a: Action)
    requires Inv(s)
    ensures Inv(Do(s, a))
  {
    match a
    case Stamp(g, kind, payload) => if s.PhaseOf(g).Idle? { StampKeeps(s, g, kind, payload); }
    case Push(g) => if s.PhaseOf(g).Stamped? { PushKeeps(s, g); }
    case Snapshot(g) => if s.PhaseOf(g).Pushed? { SnapshotKeeps(s, g); }
    case Deliver(g) =>
      if s.PhaseOf(g).Delivering? {
        if s.PhaseOf(g).next < |s.PhaseOf(g).snapshot| { DeliverKeeps(s, g); } else { FinishKeeps(s, g); }
      }
    case Register(w, filter, cap) => if w !in s.specs && cap > 0 { RegisterKeeps(s, w, filter, cap); }
    case Cancel(w) => CancelKeeps(s, w);
    case Receive(w) => if w in s.chans && s.chans[w] != [] { ReceiveKeeps(s, w); }
    case ReceiveOut => if s.out != [] { ReceiveOutKeeps(s); }
  }

  /** Every interleaving of any number of dispatchers and subscribers. */
  lemma {:induction false} RunKeepsInv(seed: nat, actions: seq<Action>)
    ensures Inv(Run(Fresh(seed), actions))
  {
    if actions == [] {
      StartInv(seed);
    } else {
      RunKeepsInv(seed, actions[..|actions| - 1]);
      ActionKeeps(Run(Fresh(seed), actions[..|actions| - 1]), actions[|actions| - 1]);
    }
  }

  /* ----- what a consumer may rely on ----- */

  /** `e` was seen by the main channel's reader or by a waiter, or is still queued. */
  ghost predicate Seen(s: Bridge, e: Event) {
    e in s.pushed || e in s.out || exists w :: w in s.specs && HasStreams(s, w) && (e in s.got[w] || e in s.chans[w])
  }

  lemma SeenLogged(s: Bridge, e: Event)
    requires Inv(s) && Seen(s, e)
    ensures Logged(s, e)
  {
    if e !in s.pushed && e !in s.out {
      var w :| w in s.specs && HasStreams(s, w) && (e in s.got[w] || e in s.chans[w]);
      assert InvWaiter(s, w);
      assert e in s.got[w];
    } else {
      assert e in s.pushed;
    }
  }

  /** A state some interleaving leads to, whatever the seed. */
  ghost predicate Reachable(s: Bridge) {
    exists actions: seq<Action> :: s == Run(Fresh(s.seed), actions)
  }

  lemma ReachableInv(s: Bridge)
    requires Reachable(s)
    ensures Inv(s)
  {
    var actions: seq<Action> :| s == Run(Fresh(s.seed), actions);
    RunKeepsInv(s.seed, actions);
  }

  /** One number, one event, at every consumer; every number is above the seed. */
  lemma SeqIdentifiesEvent(s: Bridge, e: Event, f: Event)
    requires Reachable(s) && Seen(s, e) && Seen(s, f)
    ensures e.num > s.seed
    ensures e.num == f.num ==> e == f
  {
    ReachableInv(s);
    SeenLogged(s, e);
    SeenLogged(s, f);
  }

  lemma SettledMeans(s: Bridge, w: WaiterId, e: Event)
    requires InvWaiter(s, w) && (e in s.got[w] || e in s.lost[w])
    ensures Logged(s, e) && Reached(s, e.num, w)
  {
    assert e.num in Nums(s.got[w]) + Nums(s.lost[w]);
  }

  /** Whatever a waiter got it wanted, and it was registered when the event's snapshot was
      taken. */
  lemma DeliveriesAreWanted(s: Bridge, w: WaiterId, i: nat)
    requires Reachable(s) && w in s.specs && w in s.got && i < |s.got[w]|
    ensures s.got[w][i].num in s.snaps && w in s.snaps[s.got[w][i].num]
    ensures s.specs[w].filter == {} || s.got[w][i].kind in s.specs[w].filter
  {
    ReachableInv(s);
    SettledMeans(s, w, s.got[w][i]);
  }

  /** A waiter gets an event at most once, and the events of one goroutine in increasing
      order. */
  lemma DeliveriesAreOrdered(s: Bridge, w: WaiterId, i: nat, j: nat)
    requires Reachable(s) && w in s.specs && w in s.got && i < j < |s.got[w]|
    ensures s.got[w][i].num != s.got[w][j].num
    ensures s.got[w][i].origin == s.got[w][j].origin ==> s.got[w][i].num < s.got[w][j].num
  {
    ReachableInv(s);
    SettledMeans(s, w, s.got[w][i]);
    SettledMeans(s, w, s.got[w][j]);
  }

  /* ----- when a waiter sees increasing numbers ----- */

  /** The goroutine an action belongs to. */
  predicate UsesDispatchers(actions: seq<Action>, n: nat) {
    forall a <- actions :: a.Stamp? || a.Push? || a.Snapshot? || a.Deliver? ==> a.g < n
  }

  /** Every waiter got its events in the order of their numbers. */
  ghost predicate Increasing(s: Bridge) {
    forall w, i, j | w in s.got && 0 <= i < j < |s.got[w]| :: s.got[w][i].num < s.got[w][j].num
  }

  lemma LogStep(s: Bridge, a: Action)
    ensures Do(s, a).log == s.log || (a.Stamp? && exists e: Event :: e.origin == a.g && Do(s, a).log == s.log + [e])
  {}

  lemma {:induction false} OriginsBelow(seed: nat, actions: seq<Action>, n: nat)
    requires UsesDispatchers(actions, n)
    ensures forall e <- Run(Fresh(seed), actions).log :: e.origin < n
  {
    if actions != [] {
      var front, last := actions[..|actions| - 1], actions[|actions| - 1];
      OriginsBelow(seed, front, n);
      LogStep(Run(Fresh(seed), front), last);
      assert last in actions;
    }
  }

  lemma OneDispatcherIncreases(seed: nat, actions: seq<Action>, n: nat)
    requires UsesDispatchers(actions, n) && n <= 1
    ensures Increasing(Run(Fresh(seed), actions))
  {
    var s := Run(Fresh(seed), actions);
    RunKeepsInv(seed, actions);
    OriginsBelow(seed, actions, n);
    forall w, i, j | w in s.got && 0 <= i < j < |s.got[w]|
      ensures s.got[w][i].num < s.got[w][j].num
    {
      assert InvWaiter(s, w) && Logged(s, s.got[w][i]) && Logged(s, s.got[w][j]);
    }
  }

  /** A run goes on with three more actions of two goroutines. */
  lemma RunThree(s: Bridge, before: seq<Action>, a: Action, b: Action, c: Action)
    requires UsesDispatchers(before, 2) && UsesDispatchers([a], 2) && UsesDispatchers([b], 2) && UsesDispatchers([c], 2)
    ensures UsesDispatchers(before + [a, b, c], 2)
    ensures Run(s, before + [a, b, c]) == Do(Do(Do(Run(s, before), a), b), c)
  {
    RunOn(s, before, a);
    RunOn(s, before + [a], b);
    RunOn(s, before + [a] + [b], c);
    assert before + [a, b, c] == before + [a] + [b] + [c];
    assert a in [a] && b in [b] && c in [c];
  }

  /** One waiter, which wants everything and has read nothing of `q`. */
  ghost predicate Listening(s: Bridge, q: seq<Event>) {
    && s.waiters == [0] && s.specs == map[0 := Waiter({}, 2)]
    && s.chans == map[0 := q] && s.got == map[0 := q] && s.lost == map[0 := []]
  }

  /** What the other goroutines are at does not change. */
  ghost predicate OthersRest(s: Bridge, t: Bridge, g: Goroutine) {
    forall h: Goroutine | h != g :: t.PhaseOf(h) == s.PhaseOf(h)
  }

  lemma PushesOne(s: Bridge, g: Goroutine, q: seq<Event>, e: Event)
    requires Listening(s, q) && s.PhaseOf(g) == Stamped(e)
    ensures var t := Do(s, Push(g)); Listening(t, q) && t.PhaseOf(g) == Pushed(e) && OthersRest(s, t, g)
  {}

  lemma SnapshotsOne(s: Bridge, g: Goroutine, q: seq<Event>, e: Event)
    requires Listening(s, q) && s.PhaseOf(g) == Pushed(e)
    ensures var t := Do(s, Snapshot(g));
      Listening(t, q) && t.PhaseOf(g) == Delivering(e, [0], 0) && OthersRest(s, t, g)
  {}

  lemma DeliversOne(s: Bridge, g: Goroutine, q: seq<Event>, e: Event)
    requires Listening(s, q) && |q| < 2 && s.PhaseOf(g) == Delivering(e, [0], 0)
    ensures var t := Do(s, Deliver(g)); Listening(t, q + [e]) && OthersRest(s, t, g)
  {
    assert [0][0] == 0;
    assert s.chans[0] == q && s.got[0] == q && Matches(s.specs[0], e.kind);
  }

  /** Goroutine `g` alone brings its event to the waiter. */
  lemma BringsOne(s: Bridge, g: Goroutine, q: seq<Event>, e: Event)
    requires Listening(s, q) && |q| < 2 && s.PhaseOf(g) == Stamped(e)
    ensures var t := Do(Do(Do(s, Push(g)), Snapshot(g)), Deliver(g)); Listening(t, q + [e]) && OthersRest(s, t, g)
  {
    PushesOne(s, g, q, e);
    SnapshotsOne(Do(s, Push(g)), g, q, e);
    DeliversOne(Do(Do(s, Push(g)), Snapshot(g)), g, q, e);
  }

  lemma BothStamp(seed: nat)
    ensures var s := Do(Do(Do(Fresh(seed), Register(0, {}, 2)), Stamp(0, "k", "")), Stamp(1, "k", ""));
      Listening(s, []) && s.PhaseOf(0) == Stamped(Event(seed + 1, "k", "", 0)) && s.PhaseOf(1) == Stamped(Event(seed + 2, "k", "", 1))
  {}

  /** Two goroutines have stamped an event each. */
  lemma Begun(seed: nat) returns (actions: seq<Action>)
    ensures UsesDispatchers(actions, 2)
    ensures var s := Run(Fresh(seed), actions);
      Listening(s, []) && s.PhaseOf(0) == Stamped(Event(seed + 1, "k", "", 0)) && s.PhaseOf(1) == Stamped(Event(seed + 2, "k", "", 1))
  {
    actions := [] + [Register(0, {}, 2), Stamp(0, "k", ""), Stamp(1, "k", "")];
    assert Run(Fresh(seed), []) == Fresh(seed);
    RunThree(Fresh(seed), [], Register(0, {}, 2), Stamp(0, "k", ""), Stamp(1, "k", ""));
    BothStamp(seed);
  }

  /** A goroutine that has stamped runs until its event is with the waiter. */
  lemma Brings(s: Bridge, before: seq<Action>, g: Goroutine, q: seq<Event>, e: Event) returns (actions: seq<Action>)
    requires UsesDispatchers(before, 2) && g < 2
    requires Listening(Run(s, before), q) && |q| < 2 && Run(s, before).PhaseOf(g) == Stamped(e)
    ensures UsesDispatchers(actions, 2)
    ensures Listening(Run(s, actions), q + [e]) && OthersRest(Run(s, before), Run(s, actions), g)
  {
    BringsOne(Run(s, before), g, q, e);
    RunThree(s, before, Push(g), Snapshot(g), Deliver(g));
    actions := before + [Push(g), Snapshot(g), Deliver(g)];
  }

  /** Two goroutines stamp, and the second one is the first to deliver: the waiter gets
      number 2 before number 1. */
  lemma Overtaken(seed: nat) returns (actions: seq<Action>)
    ensures UsesDispatchers(actions, 2) && !Increasing(Run(Fresh(seed), actions))
    ensures var s := Run(Fresh(seed), actions);
      0 in s.got && |s.got[0]| == 2 && s.got[0][0].num == seed + 2 && s.got[0][1].num == seed + 1
  {
    var e, f := Event(seed + 1, "k", "", 0), Event(seed + 2, "k", "", 1);
    var begun := Begun(seed);
    var second := Brings(Fresh(seed), begun, 1, [], f);
    actions := Brings(Fresh(seed), second, 0, [] + [f], e);
    OutOfOrder(Run(Fresh(seed), actions), f, e);
  }

  lemma OutOfOrder(s: Bridge, f: Event, e: Event)
    requires Listening(s, [] + [f] + [e]) && e.num < f.num
    ensures !Increasing(s) && s.got[0] == [f, e]
  {
    assert s.got[0][0] == f && s.got[0][1] == e;
  }

  /** Every waiter of every run gets its events in the order of their numbers if and only
      if a single goroutine dispatches. */
  lemma IncreasingExactlyForOneDispatcher(seed: nat, n: nat)
    ensures (forall actions: seq<Action> | UsesDispatchers(actions, n) :: Increasing(Run(Fresh(seed), actions))) <==> n <= 1
  {
    if n <= 1 {
      forall actions: seq<Action> | UsesDispatchers(actions, n)
        ensures Increasing(Run(Fresh(seed), actions))
      {
        OneDispatcherIncreases(seed, actions, n);
      }
    } else {
      var actions := Overtaken(seed);
      assert UsesDispatchers(actions, n);
    }
  }

  ghost function Due(s: Bridge, w: WaiterId): set<nat> {
    set n: nat | s.seed < n <= s.Counter() && IsDue(s, n, w) :: n
  }

  ghost function InFlight(s: Bridge, w: WaiterId): set<nat> {
    set n: nat | s.seed < n <= s.Counter() && IsDue(s, n, w) && Pending(s, n, w) :: n
  }

  lemma LastIsNew(s: Bridge, es: seq<Event>, i: nat)
    requires AllLogged(s, es) && Ordered(es) && i < |es| - 1
    ensures es[i].num != es[|es| - 1].num
  {
    var e, f := es[i], es[|es| - 1];
    assert Logged(s, e) && Logged(s, f);
    assert e.num == f.num ==> e.origin == f.origin;
  }

  lemma {:induction false} CountNums(s: Bridge, es: seq<Event>)
    requires AllLogged(s, es) && Ordered(es)
    ensures |Nums(es)| == |es|
  {
    if es != [] {
      var front, last := es[..|es| - 1], es[|es| - 1];
      assert es == front + [last];
      AppendNums(front, last);
      CountNums(s, front);
      forall e <- front
        ensures e.num != last.num
      {
        var i :| 0 <= i < |front| && front[i] == e;
        LastIsNew(s, es, i);
      }
      assert last.num !in Nums(front);
    }
  }

  /** The events due to a waiter: those snapshotted with it whose kind its filter takes. */
  lemma DueMeans(s: Bridge, w: WaiterId, n: nat)
    requires w in s.specs
    ensures n in Due(s, w) <==>
      && s.seed < n <= s.seed + |s.log| && n in s.snaps && w in s.snaps[n]
      && (s.specs[w].filter == {} || s.log[n - s.seed - 1].kind in s.specs[w].filter)
  {
    if s.seed < n <= s.Counter() {
      assert n in Due(s, w) <==> IsDue(s, n, w);
    }
  }

  /** Delivered, dropped and in-flight events are disjoint and together are exactly
      the matching events that were snapshotted with the waiter. */
  lemma NothingUnaccounted(s: Bridge, w: WaiterId)
    requires Reachable(s) && w in s.specs
    ensures w in s.got && w in s.lost
    ensures Nums(s.got[w]) + Nums(s.lost[w]) + InFlight(s, w) == Due(s, w)
    ensures Nums(s.got[w]) !! Nums(s.lost[w]) && InFlight(s, w) !! Nums(s.got[w]) + Nums(s.lost[w])
    ensures |s.got[w]| + |s.lost[w]| + |InFlight(s, w)| == |Due(s, w)|
  {
    ReachableInv(s);
    assert InvWaiter(s, w);
    Accounted(s, w);
    CountNums(s, s.got[w]);
    CountNums(s, s.lost[w]);
  }

  lemma Accounted(s: Bridge, w: WaiterId)
    requires InvWaiter(s, w)
    ensures Nums(s.got[w]) + Nums(s.lost[w]) + InFlight(s, w) == Due(s, w)
    ensures InFlight(s, w) !! Nums(s.got[w]) + Nums(s.lost[w])
  {
    var settled := Nums(s.got[w]) + Nums(s.lost[w]);
    forall n <- settled
      ensures s.seed < n <= s.Counter() && Reached(s, n, w)
    {
      var e :| (e in s.got[w] || e in s.lost[w]) && e.num == n;
      SettledMeans(s, w, e);
    }
    forall n <- InFlight(s, w)
      ensures n !in settled
    {
      assert !Reached(s, n, w);
    }
    forall n <- Due(s, w)
      ensures n in settled + InFlight(s, w)
    {
      assert Reached(s, n, w) || Pending(s, n, w);
    }
  }

  /** The main channel, too, carries the events of one goroutine in order. */
  lemma MainChannelOrder(s: Bridge, i: nat, j: nat)
    requires Reachable(s) && i < j < |s.pushed|
    ensures s.pushed[i].origin == s.pushed[j].origin ==> s.pushed[i].num < s.pushed[j].num
  {
    ReachableInv(s);
  }

  /* ----- the clocks ----- */

  /** When the last upstream event arrived, and the last one that is organic traffic. */
  datatype Clocks = Clocks(lastEvent: int, lastTraffic: int)

  /** isTrafficEvent */
  predicate IsTraffic(kind: string) { kind == "message" || kind == "receipt" }

  /** What dispatching an event of this kind does to the clocks; `upstream` is
      dispatch's updateLastEvent. */
  function Touched(c: Clocks, kind: string, now: int, upstream: bool): Clocks {
    if upstream then Clocks(now, if IsTraffic(kind) then now else c.lastTraffic) else c
  }

  datatype Dispatching = Dispatching(kind: string, now: int, upstream: bool)

  /** The clocks after a run of dispatches. */
  function ClocksAfter(c: Clocks, ds: seq<Dispatching>): Clocks {
    if ds == [] then c
    else
      var last := ds[|ds| - 1];
      Touched(ClocksAfter(c, ds[..|ds| - 1]), last.kind, last.now, last.upstream)
  }

  /** The upstream events of a run. */
  function UpstreamOnly(ds: seq<Dispatching>): seq<Dispatching> {
    if ds == [] then []
    else UpstreamOnly(ds[..|ds| - 1]) + (if ds[|ds| - 1].upstream then [ds[|ds| - 1]] else [])
  }

  /** The clocks of a run are those of its upstream events: synthetic ones, however many
      and wherever they come, leave no trace in them. */
  lemma {:induction false} SyntheticLeavesNoTrace(c: Clocks, ds: seq<Dispatching>)
    ensures ClocksAfter(c, ds) == ClocksAfter(c, UpstreamOnly(ds))
  {
    if ds != [] {
      var front, last := ds[..|ds| - 1], ds[|ds| - 1];
      SyntheticLeavesNoTrace(c, front);
      if last.upstream {
        var kept := UpstreamOnly(front) + [last];
        assert kept[..|kept| - 1] == UpstreamOnly(front);
      } else {
        assert UpstreamOnly(front) + [] == UpstreamOnly(front);
      }
    }
  }

  /* ----- the code, one goroutine running alone ----- */

  lemma SeedKept(s: Bridge, a: Action)
    ensures Do(s, a).seed == s.seed
  {}

  lemma RunOn(s: Bridge, actions: seq<Action>, a: Action)
    ensures Run(s, actions + [a]) == Do(Run(s, actions), a)
  {
    assert (actions + [a])[..|actions|] == actions;
  }

  lemma StepReachable(s: Bridge, a: Action)
    requires Reachable(s)
    ensures Reachable(Do(s, a)) && Do(s, a).seed == s.seed
  {
    var actions: seq<Action> :| s == Run(Fresh(s.seed), actions);
    SeedKept(s, a);
    RunOn(Fresh(s.seed), actions, a);
  }

  /** Nobody came or went since `s`, and the log has `e` more. */
  ghost predicate Only(s: Bridge, t: Bridge, e: Event) {
    t.seed == s.seed && t.waiters == s.waiters && t.specs == s.specs && t.log == s.log + [e]
  }

  /** `g` is delivering `e` to those registered in `s`. */
  ghost predicate FanningOut(s: Bridge, t: Bridge, g: Goroutine, e: Event) {
    && Reachable(t) && Only(s, t, e) && e.num in t.snaps && t.snaps[e.num] == s.waiters
    && t.PhaseOf(g).Delivering? && t.PhaseOf(g).event == e && t.PhaseOf(g).snapshot == s.waiters
  }

  lemma OpensStamp(s: Bridge, g: Goroutine, kind: string, payload: string)
    requires Reachable(s) && s.PhaseOf(g).Idle?
    ensures var t, e := Do(s, Stamp(g, kind, payload)), Event(s.Counter() + 1, kind, payload, g);
      Reachable(t) && Only(s, t, e) && t.PhaseOf(g) == Stamped(e) && t.out == s.out && t.chans == s.chans
  {
    StepReachable(s, Stamp(g, kind, payload));
  }

  lemma OpensPush(s: Bridge, t: Bridge, g: Goroutine, e: Event)
    requires Reachable(t) && Only(s, t, e) && t.PhaseOf(g) == Stamped(e)
    ensures var u := Do(t, Push(g));
      && Reachable(u) && Only(s, u, e) && u.PhaseOf(g) == Pushed(e) && u.chans == t.chans
      && u.out == if |t.out| < EVENT_CHANNEL_BUFFER then t.out + [e] else t.out
  {
    StepReachable(t, Push(g));
  }

  lemma OpensSnapshot(s: Bridge, t: Bridge, g: Goroutine, e: Event)
    requires Reachable(t) && Only(s, t, e) && t.PhaseOf(g) == Pushed(e)
    ensures var u := Do(t, Snapshot(g));
      FanningOut(s, u, g, e) && u.PhaseOf(g).next == 0 && u.out == t.out && u.chans == t.chans
  {
    StepReachable(t, Snapshot(g));
  }

  /** A waiter's channel after a non-blocking send of `e`. */
  function Sent(q: seq<Event>, w: Waiter, e: Event): seq<Event> {
    if Matches(w, e.kind) && |q| < w.cap then q + [e] else q
  }

  lemma Advances(s: Bridge, t: Bridge, g: Goroutine, e: Event)
    requires FanningOut(s, t, g, e) && t.PhaseOf(g).next < |s.waiters|
    ensures var u, w := Do(t, Deliver(g)), s.waiters[t.PhaseOf(g).next];
      && FanningOut(s, u, g, e) && u.PhaseOf(g).next == t.PhaseOf(g).next + 1
      && w in t.specs && w in t.chans && u.out == t.out
      && u.chans == t.chans[w := Sent(t.chans[w], t.specs[w], e)]
  {
    ReachableInv(t);
    StepReachable(t, Deliver(g));
    assert InvGoroutine(t, g);
    DeliverIs(t, g);
    var w := t.PhaseOf(g).snapshot[t.PhaseOf(g).next];
    SendFrame(t, w, e);
    SendChannels(t, w, e);
  }

  /** A wanted event is appended if there is room and lost otherwise; an unwanted one
      changes nothing. */
  lemma SentMeans(q: seq<Event>, w: Waiter, e: Event)
    ensures (w.filter == {} || e.kind in w.filter) && |q| < w.cap ==> Sent(q, w, e) == q + [e]
    ensures (w.filter == {} || e.kind in w.filter) && |q| >= w.cap ==> Sent(q, w, e) == q
    ensures w.filter != {} && e.kind !in w.filter ==> Sent(q, w, e) == q
  {}

  lemma SendChannels(s: Bridge, w: WaiterId, e: Event)
    requires HasStreams(s, w)
    ensures Send(s, w, e).chans == s.chans[w := Sent(s.chans[w], s.specs[w], e)] && Send(s, w, e).out == s.out
  {
    assert s.chans[w := s.chans[w]] == s.chans;
  }

  /** Every registered waiter whose filter takes `e` has it, or has lost it. */
  ghost predicate FannedOut(t: Bridge, e: Event) {
    forall w | w in t.waiters && w in t.specs && Matches(t.specs[w], e.kind) ::
      w in t.got && w in t.lost && e.num in Nums(t.got[w]) + Nums(t.lost[w])
  }

  lemma Closes(s: Bridge, t: Bridge, g: Goroutine, e: Event)
    requires FanningOut(s, t, g, e) && t.PhaseOf(g).next >= |t.PhaseOf(g).snapshot|
    requires e.num == s.Counter() + 1 && e.origin == g
    ensures var u := Do(t, Deliver(g));
      && Reachable(u) && Only(s, u, e) && u.PhaseOf(g).Idle? && FannedOut(u, e)
      && u.out == t.out && u.chans == t.chans
  {
    StepReachable(t, Deliver(g));
    Finished(s, Do(t, Deliver(g)), g, e);
  }

  /** Once the goroutine is idle again, nobody is still to be reached. */
  lemma Finished(s: Bridge, u: Bridge, g: Goroutine, e: Event)
    requires Reachable(u) && Only(s, u, e) && u.PhaseOf(g).Idle?
    requires e.num == s.Counter() + 1 && e.origin == g && e.num in u.snaps && u.snaps[e.num] == s.waiters
    ensures FannedOut(u, e)
    ensures forall w | w in u.waiters && w in u.specs && (u.specs[w].filter == {} || e.kind in u.specs[w].filter) ::
      w in u.got && w in u.lost && e.num in Nums(u.got[w]) + Nums(u.lost[w])
  {
    ReachableInv(u);
    forall w | w in u.waiters && w in u.specs && Matches(u.specs[w], e.kind)
      ensures w in u.got && w in u.lost && e.num in Nums(u.got[w]) + Nums(u.lost[w])
    {
      FinishedAt(s, u, g, e, w);
    }
  }

  lemma FinishedAt(s: Bridge, u: Bridge, g: Goroutine, e: Event, w: WaiterId)
    requires InvWaiter(u, w) && Only(s, u, e) && u.PhaseOf(g).Idle?
    requires e.num == s.Counter() + 1 && e.origin == g && e.num in u.snaps && u.snaps[e.num] == s.waiters
    requires w in u.waiters && Matches(u.specs[w], e.kind)
    ensures e.num in Nums(u.got[w]) + Nums(u.lost[w])
  {
    assert u.log[e.num - u.seed - 1] == e;
    assert Reached(u, e.num, w);
  }

  /** The bridge's fields. `st` is the same state with its history: each method below
      makes one action of the state machine, on the fields and on `st`, in the order in
      which dispatch makes them. `Valid` says that the fields agree with `st` and that
      `st` is reachable, so everything proved of reachable states holds of the object. */
  class EventBridge {
    var counter: nat
    var clocks: Clocks
    var out: seq<Event>
    var waiters: seq<WaiterId>
    var specs: map<WaiterId, Waiter>
    var chans: map<WaiterId, seq<Event>>
    ghost var st: Bridge

    ghost predicate Valid()
      reads this
    {
      && counter == st.Counter() && out == st.out && waiters == st.waiters && specs == st.specs && chans == st.chans
      && Reachable(st)
    }

    constructor (seed: nat)
      ensures Valid() && counter == seed && waiters == [] && out == [] && clocks == Clocks(0, 0) && st == Fresh(seed)
    {
      counter, clocks, out, waiters, specs, chans := seed, Clocks(0, 0), [], [], map[], map[];
      st := Fresh(seed);
      assert Fresh(seed) == Run(Fresh(seed), []);
    }

    /** dispatch: stamp, touch the clocks, push, snapshot, deliver to the snapshot one by
        one. A full channel loses the event that is being sent. */
    method Dispatch(g: Goroutine, kind: string, payload: string, upstream: bool, now: int)
      requires Valid() && st.PhaseOf(g).Idle?
      modifies this
      ensures Valid() && st.PhaseOf(g).Idle?
      ensures counter == old(counter) + 1 && waiters == old(waiters) && specs == old(specs)
      ensures clocks == Touched(old(clocks), kind, now, upstream)
      ensures var e := Event(counter, kind, payload, g);
        && Only(old(st), st, e) && FannedOut(st, e)
        && out == (if |old(out)| < EVENT_CHANNEL_BUFFER then old(out) + [e] else old(out))
        && Served(old(chans), chans, specs, waiters, e)
      ensures st.log == old(st.log) + [Event(counter, kind, payload, g)]
      ensures out == if |old(out)| < 64 then old(out) + [Event(counter, kind, payload, g)] else old(out)
      ensures clocks == if !upstream then old(clocks)
                        else Clocks(now, if kind == "message" || kind == "receipt" then now else old(clocks).lastTraffic)
      ensures chans.Keys == old(chans).Keys && forall w <- waiters :: w in specs && w in chans
      ensures forall w | w in chans ::
        chans[w] == if w in waiters && w in specs && (specs[w].filter == {} || kind in specs[w].filter) && |old(chans)[w]| < specs[w].cap
                    then old(chans)[w] + [Event(counter, kind, payload, g)]
                    else old(chans)[w]
    {
      ghost var start := st;
      var e := StampEvent(g, kind, payload);
      if upstream {
        clocks := clocks.(lastEvent := now);
        if IsTraffic(kind) {
          clocks := clocks.(lastTraffic := now);
        }
      }
      PushOut(g, e, start);
      var snapshot := TakeSnapshot(g, e, start);
      DeliverAll(g, snapshot, e, start);
      ServedMeans(old(chans), chans, specs, waiters, e);
      AllRegistered();
    }

    lemma AllRegistered()
      requires Valid()
      ensures forall w <- waiters :: w in specs && w in chans
    {
      ReachableInv(st);
    }

    /** EmitSynthetic: the clocks do not move. */
    method EmitSynthetic(g: Goroutine, kind: string, payload: string, now: int)
      requires Valid() && st.PhaseOf(g).Idle?
      modifies this
      ensures Valid() && st.PhaseOf(g).Idle?
      ensures clocks == old(clocks)
      ensures counter == old(counter) + 1 && waiters == old(waiters) && specs == old(specs)
      ensures FannedOut(st, Event(counter, kind, payload, g))
      ensures out == if |old(out)| < 64 then old(out) + [Event(counter, kind, payload, g)] else old(out)
      ensures st.log == old(st.log) + [Event(counter, kind, payload, g)]
      ensures chans.Keys == old(chans).Keys
      ensures forall w | w in chans ::
        chans[w] == if w in waiters && w in specs && (specs[w].filter == {} || kind in specs[w].filter) && |old(chans)[w]| < specs[w].cap
                    then old(chans)[w] + [Event(counter, kind, payload, g)]
                    else old(chans)[w]
    {
      Dispatch(g, kind, payload, false, now);
    }

    method StampEvent(g: Goroutine, kind: string, payload: string) returns (e: Event)
      requires Valid() && st.PhaseOf(g).Idle?
      modifies this`counter, this`st
      ensures Valid() && counter == old(counter) + 1 && e == Event(counter, kind, payload, g)
      ensures st == Do(old(st), Stamp(g, kind, payload))
      ensures Only(old(st), st, e) && st.PhaseOf(g) == Stamped(e)
    {
      OpensStamp(st, g, kind, payload);
      counter := counter + 1;
      e := Event(counter, kind, payload, g);
      st := Do(st, Stamp(g, kind, payload));
    }

    /** The push to the main channel. */
    method PushOut(g: Goroutine, e: Event, ghost start: Bridge)
      requires Valid() && Only(start, st, e) && st.PhaseOf(g) == Stamped(e)
      modifies this`out, this`st
      ensures Valid() && st == Do(old(st), Push(g))
      ensures out == if |old(out)| < EVENT_CHANNEL_BUFFER then old(out) + [e] else old(out)
      ensures Only(start, st, e) && st.PhaseOf(g) == Pushed(e)
    {
      OpensPush(start, st, g, e);
      if |out| < EVENT_CHANNEL_BUFFER {
        out := out + [e];
      }
      st := Do(st, Push(g));
    }

    /** The copy of the waiter list. */
    method TakeSnapshot(g: Goroutine, e: Event, ghost start: Bridge) returns (snapshot: seq<WaiterId>)
      requires Valid() && Only(start, st, e) && st.PhaseOf(g) == Pushed(e)
      modifies this`st
      ensures Valid() && snapshot == waiters && st == Do(old(st), Snapshot(g))
      ensures FanningOut(start, st, g, e) && st.PhaseOf(g).next == 0
    {
      OpensSnapshot(start, st, g, e);
      snapshot := waiters;
      st := Do(st, Snapshot(g));
    }

    /** The loop over the snapshot. */
    method DeliverAll(g: Goroutine, snapshot: seq<WaiterId>, e: Event, ghost start: Bridge)
      requires Valid() && FanningOut(start, st, g, e) && st.PhaseOf(g).next == 0
      requires snapshot == start.waiters && e.num == start.Counter() + 1 && e.origin == g
      modifies this`chans, this`st
      ensures Valid() && st.PhaseOf(g).Idle? && Only(start, st, e) && FannedOut(st, e)
      ensures Served(old(chans), chans, specs, snapshot, e)
    {
      for i := 0 to |snapshot|
        invariant Valid() && FanningOut(start, st, g, e) && st.PhaseOf(g).next == i
        invariant Served(old(chans), chans, specs, snapshot[..i], e)
      {
        SnapshotRegistered(start, st, g, e);
        ghost var before := chans;
        DeliverOne(g, snapshot[i], e, start);
        ServedOne(old(chans), before, chans, specs, snapshot, i, e);
      }
      assert snapshot[..|snapshot|] == snapshot;
      Closes(start, st, g, e);
      st := Do(st, Deliver(g));
    }

    /** A non-blocking send to the waiter whose turn it is, if it wants the event. */
    method DeliverOne(g: Goroutine, w: WaiterId, e: Event, ghost start: Bridge)
      requires Valid() && FanningOut(start, st, g, e)
      requires st.PhaseOf(g).next < |start.waiters| && w == start.waiters[st.PhaseOf(g).next]
      modifies this`chans, this`st
      ensures Valid() && st == Do(old(st), Deliver(g))
      ensures FanningOut(start, st, g, e) && st.PhaseOf(g).next == old(st.PhaseOf(g).next) + 1
      ensures w in specs && w in old(chans) && chans == old(chans)[w := Sent(old(chans)[w], specs[w], e)]
      ensures chans[w] == if (specs[w].filter == {} || e.kind in specs[w].filter) && |old(chans)[w]| < specs[w].cap
                          then old(chans)[w] + [e]
                          else old(chans)[w]
    {
      Advances(start, st, g, e);
      assert chans[w := chans[w]] == chans;
      if Matches(specs[w], e.kind) {
        if |chans[w]| < specs[w].cap {
          chans := chans[w := chans[w] + [e]];
        }
      }
      st := Do(st, Deliver(g));
    }

    /** registerSubscriber: a new waiter at the end of the list. */
    method RegisterSubscriber(w: WaiterId, filter: set<string>, bufSize: nat)
      requires Valid() && w !in specs && bufSize > 0
      modifies this`waiters, this`specs, this`chans, this`st
      ensures Valid()
      ensures waiters == old(waiters) + [w] && specs == old(specs)[w := Waiter(filter, bufSize)]
      ensures chans == old(chans)[w := []]
    {
      st := AfterRegister(st, w, filter, bufSize);
      specs := specs[w := Waiter(filter, bufSize)];
      chans := chans[w := []];
      waiters := waiters + [w];
    }

    /** SubscribeStream: a buffer of at least one. */
    method SubscribeStream(w: WaiterId, filter: set<string>, bufSize: int)
      requires Valid() && w !in specs
      modifies this`waiters, this`specs, this`chans, this`st
      ensures Valid()
      ensures waiters == old(waiters) + [w]
      ensures specs == old(specs)[w := Waiter(filter, if bufSize < 1 then 1 else bufSize)]
    {
      var n := bufSize;
      if n < 1 {
        n := 1;
      }
      RegisterSubscriber(w, filter, n);
    }

    /** The cancel closure: the first occurrence goes, the order stays, and what is
        already queued stays readable. */
    method Cancel(w: WaiterId)
      requires Valid()
      modifies this`waiters, this`st
      ensures Valid() && waiters == Without(old(waiters), w)
      ensures forall v :: v in waiters <==> v in old(waiters) && v != w
    {
      st := AfterCancel(st, w);
      waiters := Remove(waiters, w);
    }
  }

  /** Each waiter once, and each with its filter and its channel. */
  ghost predicate Registered(ws: seq<WaiterId>, specs: map<WaiterId, Waiter>, chans: map<WaiterId, seq<Event>>) {
    Distinct(ws) && forall w <- ws :: w in specs && w in chans
  }

  lemma SnapshotRegistered(s: Bridge, t: Bridge, g: Goroutine, e: Event)
    requires FanningOut(s, t, g, e)
    ensures Registered(s.waiters, s.specs, t.chans)
  {
    ReachableInv(t);
  }

  lemma AfterRegister(s: Bridge, w: WaiterId, filter: set<string>, cap: nat) returns (u: Bridge)
    requires Reachable(s) && w !in s.specs && cap > 0
    ensures Reachable(u) && u.Counter() == s.Counter() && u.out == s.out && u.waiters == s.waiters + [w]
    ensures u.specs == s.specs[w := Waiter(filter, cap)] && u.chans == s.chans[w := []]
  {
    StepReachable(s, Register(w, filter, cap));
    u := Do(s, Register(w, filter, cap));
  }

  lemma AfterCancel(s: Bridge, w: WaiterId) returns (u: Bridge)
    requires Reachable(s)
    ensures Reachable(u) && u == s.(waiters := Without(s.waiters, w))
    ensures forall v :: v in u.waiters <==> v in s.waiters && v != w
  {
    ReachableInv(s);
    StepReachable(s, Action.Cancel(w));
    WithoutDistinct(s.waiters, w);
    u := Do(s, Action.Cancel(w));
  }

  /** The channels after `e` was offered to the waiters in `done`, to each once. */
  ghost predicate Served(
    before: map<WaiterId, seq<Event>>, after: map<WaiterId, seq<Event>>,
    specs: map<WaiterId, Waiter>, done: seq<WaiterId>, e: Event)
  {
    && after.Keys == before.Keys
    && forall w <- after :: after[w] == if w in done && w in specs then Sent(before[w], specs[w], e) else before[w]
  }

  lemma ServedMeans(
    before: map<WaiterId, seq<Event>>, after: map<WaiterId, seq<Event>>,
    specs: map<WaiterId, Waiter>, done: seq<WaiterId>, e: Event)
    requires Served(before, after, specs, done, e)
    ensures after.Keys == before.Keys
    ensures forall w | w in after ::
      after[w] == if w in done && w in specs && (specs[w].filter == {} || e.kind in specs[w].filter) && |before[w]| < specs[w].cap
                  then before[w] + [e]
                  else before[w]
  {
    forall w | w in after && w in done && w in specs
      ensures (specs[w].filter == {} || e.kind in specs[w].filter) && |before[w]| < specs[w].cap ==> after[w] == before[w] + [e]
      ensures !((specs[w].filter == {} || e.kind in specs[w].filter) && |before[w]| < specs[w].cap) ==> after[w] == before[w]
    {
      SentMeans(before[w], specs[w], e);
    }
  }

  lemma ServedOne(
    start: map<WaiterId, seq<Event>>, before: map<WaiterId, seq<Event>>, after: map<WaiterId, seq<Event>>,
    specs: map<WaiterId, Waiter>, snapshot: seq<WaiterId>, i: nat, e: Event)
    requires i < |snapshot| && snapshot[i] !in snapshot[..i] && snapshot[i] in specs && snapshot[i] in before
    requires Served(start, before, specs, snapshot[..i], e)
    requires after == before[snapshot[i] := Sent(before[snapshot[i]], specs[snapshot[i]], e)]
    ensures Served(start, after, specs, snapshot[..i + 1], e)
  {
    assert snapshot[..i + 1] == snapshot[..i] + [snapshot[i]];
  }

  lemma {:induction false} WithoutAt(ws: seq<WaiterId>, i: nat, w: WaiterId)
    requires i <= |ws| && (forall k | 0 <= k < i :: ws[k] != w) && (i < |ws| ==> ws[i] == w)
    ensures Without(ws, w) == if i < |ws| then ws[..i] + ws[i + 1..] else ws
    decreases i
  {
    if i > 0 {
      WithoutAt(ws[1..], i - 1, w);
      assert i < |ws| ==> ws[..i] + ws[i + 1..] == [ws[0]] + (ws[1..][..i - 1] + ws[1..][i..]);
    }
  }

  method Remove(ws: seq<WaiterId>, w: WaiterId) returns (left: seq<WaiterId>)
    ensures left == Without(ws, w)
  {
    var i := 0;
    while i < |ws| && ws[i] != w
      invariant i <= |ws| && forall k | 0 <= k < i :: ws[k] != w
    {
      i := i + 1;
    }
    WithoutAt(ws, i, w);
    left := if i < |ws| then ws[..i] + ws[i + 1..] else ws;
  }
}
