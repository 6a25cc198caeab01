/** The embedding pipeline: producers persist messages and nudge, workers take them
    from a lossy channel or from the durable backlog, embed, index, retry and
    finally drop; the process may die at any point
    (internal/app/embed_pipeline.go). */
module EmbedPipeline {
  import opened Text

  type Id = string

  datatype Message = Message(id: Id, body: string)

  const CHANNEL_CAP := 256
  const BATCH := 16

  /** Where a worker is in process or fail for its current message. */
  datatype Job =
    | Start(m: Message)
    | Embedded(m: Message)
    | Upserted(m: Message)
    | Failing(m: Message)
    | Dropping(m: Message)

  /** A worker's current job, if any, and the rest of its batch. */
  datatype Worker = Busy(job: Job, rest: seq<Message>) | Resting(rest: seq<Message>)

  /** History of the store. */
  datatype Entry =
    | Stored(id: Id, m: Message)             // Enqueue's durable write: a new row, or a row replaced
    | Failure(id: Id)                        // IncrementAttempts returned
    | Indexed(id: Id)                        // MarkIndexed after an upsert: row and counter gone
    | Drop(id: Id, row: Option<Message>)     // MarkIndexed as tombstone: row, if there is one, and counter gone

  /** Store and index are durable; channel and workers are not. The index holds, for each
      id, the message whose body was embedded last. */
  datatype State = State(
    pending: map<Id, Message>,
    attempts: map<Id, nat>,
    index: map<Id, Message>,
    chan: seq<Message>,
    workers: map<nat, Worker>,
    history: seq<Entry>)
  {
    function WorkerAt(w: nat): Worker { if w in workers then workers[w] else Resting([]) }

    function Attempts(id: Id): nat { if id in attempts then attempts[id] else 0 }

    function With(w: nat, k: Worker): State { this.(workers := workers[w := k]) }

    /** MarkIndexed clears the row and its attempt counter. */
    function Cleared(id: Id): State { this.(pending := pending - {id}, attempts := attempts - {id}) }

    function Row(id: Id): Option<Message> { if id in pending then Some(pending[id]) else None }
  }

  const BOOT: State := State(map[], map[], map[], [], map[], [])

  /** Each atomic step, with the outcome of the port call it makes. */
  datatype Action =
    | Persist(m: Message)              // Enqueue: the durable write succeeded
    | Nudge(m: Message)                // Enqueue: non-blocking send
    | Take(w: nat)                     // receive from the channel
    | Load(w: nat, batch: seq<Message>)
    | NextInBatch(w: nat)
    | Embed(w: nat, ok: bool)
    | Upsert(w: nat, ok: bool)
    | MarkIndexed(w: nat, ok: bool)
    | Increment(w: nat, ok: bool)
    | Tombstone(w: nat, ok: bool)
    | Crash

  function Do(max: nat, s: State, a: Action): State {
    match a
    case Persist(m) =>
      if m.id == "" || m.body == "" then s
      else s.(pending := s.pending[m.id := m], history := s.history + [Stored(m.id, m)])
    case Nudge(m) =>
      if Stored(m.id, m) in s.history && |s.chan| < CHANNEL_CAP then s.(chan := s.chan + [m]) else s
    case Take(w) =>
      if s.WorkerAt(w) == Resting([]) && s.chan != [] then
        s.(chan := s.chan[1..]).With(w, Busy(Start(s.chan[0]), []))
      else s
    case Load(w, batch) =>
      if s.WorkerAt(w) == Resting([]) && |batch| <= BATCH && forall m <- batch :: m.id in s.pending && s.pending[m.id] == m
      then s.With(w, Resting(batch))
      else s
    case NextInBatch(w) =>
      (match s.WorkerAt(w)
       case Resting(rest) => if rest != [] then s.With(w, Busy(Start(rest[0]), rest[1..])) else s
       case _ => s)
    case Embed(w, ok) =>
      (match s.WorkerAt(w)
       case Busy(Start(m), rest) => s.With(w, Busy(if ok then Embedded(m) else Failing(m), rest))
       case _ => s)
    case Upsert(w, ok) =>
      (match s.WorkerAt(w)
       case Busy(Embedded(m), rest) =>
         if ok then s.(index := s.index[m.id := m]).With(w, Busy(Upserted(m), rest))
         else s.With(w, Busy(Failing(m), rest))
       case _ => s)
    case MarkIndexed(w, ok) =>
      (match s.WorkerAt(w)
       case Busy(Upserted(m), rest) =>
         (if ok then s.Cleared(m.id).(history := s.history + [Indexed(m.id)]) else s).With(w, Resting(rest))
       case _ => s)
    case Increment(w, ok) =>
      (match s.WorkerAt(w)
       case Busy(Failing(m), rest) =>
         if !ok then s.With(w, Resting(rest))
         else
           var n := s.Attempts(m.id) + 1;
           s.(attempts := s.attempts[m.id := n], history := s.history + [Failure(m.id)])
            .With(w, if n < max then Resting(rest) else Busy(Dropping(m), rest))
       case _ => s)
    case Tombstone(w, ok) =>
      (match s.WorkerAt(w)
       case Busy(Dropping(m), rest) =>
         (if ok then s.Cleared(m.id).(history := s.history + [Drop(m.id, s.Row(m.id))]) else s).With(w, Resting(rest))
       case _ => s)
    case Crash => s.(chan := [], workers := map[])
  }

  function Run(max: nat, s: State, actions: seq<Action>): State {
    if actions == [] then s else Do(max, Run(max, s, actions[..|actions| - 1]), actions[|actions| - 1])
  }

  /* ----- no accepted id is lost ----- */

  /** Ids the history says were dropped as poison. */
  ghost function Dropped(h: seq<Entry>): set<Id> { set e | e in h && e.Drop? :: e.id }

  /** Ids that Enqueue has persisted. */
  ghost function Accepted(h: seq<Entry>): set<Id> { set e | e in h && e.Stored? :: e.id }

  ghost predicate Safe(s: State) {
    && (forall id <- Accepted(s.history) :: id in s.pending || id in s.index || id in Dropped(s.history))
    && (forall w: nat :: JobSafe(s, s.WorkerAt(w)))
  }

  ghost predicate JobSafe(s: State, k: Worker) {
    k.Busy? && k.job.Upserted? ==> k.job.m.id in s.index
  }

  lemma AcceptedGrows(h: seq<Entry>, e: Entry)
    ensures Accepted(h + [e]) == Accepted(h) + (if e.Stored? then {e.id} else {})
    ensures Dropped(h + [e]) == Dropped(h) + (if e.Drop? then {e.id} else {})
  {
    assert forall f :: f in h + [e] <==> f in h || f == e;
  }

  /** The entry a step writes, if any. */
  function Wrote(max: nat, s: State, a: Action): seq<Entry> {
    match a
    case Persist(m) => if m.id == "" || m.body == "" then [] else [Stored(m.id, m)]
    case MarkIndexed(w, ok) =>
      (match s.WorkerAt(w) case Busy(Upserted(m), _) => if ok then [Indexed(m.id)] else [] case _ => [])
    case Increment(w, ok) =>
      (match s.WorkerAt(w) case Busy(Failing(m), _) => if ok then [Failure(m.id)] else [] case _ => [])
    case Tombstone(w, ok) =>
      (match s.WorkerAt(w) case Busy(Dropping(m), _) => if ok then [Drop(m.id, s.Row(m.id))] else [] case _ => [])
    case _ => []
  }

  lemma HistoryStep(max: nat, s: State, a: Action)
    ensures Do(max, s, a).history == s.history + Wrote(max, s, a)
    ensures |Wrote(max, s, a)| <= 1
  {}

  lemma JobsSafe(max: nat, s: State, a: Action)
    requires Safe(s)
    ensures s.index.Keys <= Do(max, s, a).index.Keys
    ensures forall w: nat :: JobSafe(Do(max, s, a), Do(max, s, a).WorkerAt(w))
  {
    var s' := Do(max, s, a);
    forall w: nat
      ensures JobSafe(s', s'.WorkerAt(w))
    {
      assert JobSafe(s, s.WorkerAt(w));
    }
  }

  lemma StepSafe(max: nat, s: State, a: Action)
    requires Safe(s)
    ensures Safe(Do(max, s, a))
  {
    var s' := Do(max, s, a);
    JobsSafe(max, s, a);
    HistoryStep(max, s, a);
    if Wrote(max, s, a) != [] {
      AcceptedGrows(s.history, Wrote(max, s, a)[0]);
    }
    if a.MarkIndexed? {
      assert JobSafe(s, s.WorkerAt(a.w));
    }
    forall id <- Accepted(s'.history)
      ensures id in s'.pending || id in s'.index || id in Dropped(s'.history)
    {
      assert id !in Accepted(s.history) ==> a.Persist? && id in s'.pending;
    }
  }

  /** At every step of every interleaving, with any number of crashes, an id that
      Enqueue has persisted is pending, indexed or dropped as poison. */
  lemma {:induction false} NothingLost(max: nat, actions: seq<Action>)
    ensures Safe(Run(max, BOOT, actions))
  {
    if actions != [] {
      NothingLost(max, actions[..|actions| - 1]);
      StepSafe(max, Run(max, BOOT, actions[..|actions| - 1]), actions[|actions| - 1]);
    }
  }

  /* ----- the retry budget ----- */

  /** The counter of `id` after entry `e`. */
  function NextCount(n: nat, id: Id, e: Entry): nat {
    if e.id != id || e.Stored? then n else if e.Failure? then n + 1 else 0
  }

  /** Failures of `id` recorded since its counter was last cleared. */
  ghost function FailuresSince(h: seq<Entry>, id: Id): nat {
    if h == [] then 0 else NextCount(FailuresSince(h[..|h| - 1], id), id, h[|h| - 1])
  }

  /** Some prefix of the history ends with a failure that used up the budget. */
  ghost predicate BudgetUsedUp(max: nat, h: seq<Entry>, id: Id) {
    exists k :: 0 < k <= |h| && h[k - 1] == Failure(id) && FailuresSince(h[..k], id) >= max
  }

  /** Every drop was decided on a used-up budget. */
  ghost predicate DropsDecided(max: nat, h: seq<Entry>) {
    forall k | 0 <= k < |h| && h[k].Drop? :: BudgetUsedUp(max, h[..k], h[k].id)
  }

  /** Every drop happens on a used-up budget: at least `max` failures since the
      counter was last cleared. */
  ghost predicate DropsInBudget(max: nat, h: seq<Entry>) {
    forall k | 0 <= k < |h| && h[k].Drop? :: FailuresSince(h[..k], h[k].id) >= max
  }

  ghost predicate Counted(max: nat, s: State) {
    && (forall id: Id :: s.Attempts(id) == FailuresSince(s.history, id))
    && (forall w: nat :: Decided(max, s.history, s.WorkerAt(w)))
    && DropsDecided(max, s.history)
  }

  ghost predicate Decided(max: nat, h: seq<Entry>, k: Worker) {
    k.Busy? && k.job.Dropping? ==> BudgetUsedUp(max, h, k.job.m.id)
  }

  lemma UsedUpStays(max: nat, h: seq<Entry>, e: Entry, id: Id)
    requires BudgetUsedUp(max, h, id)
    ensures BudgetUsedUp(max, h + [e], id)
  {
    var k :| 0 < k <= |h| && h[k - 1] == Failure(id) && FailuresSince(h[..k], id) >= max;
    assert (h + [e])[..k] == h[..k];
  }

  lemma Appended(h: seq<Entry>, e: Entry, id: Id)
    ensures FailuresSince(h + [e], id)
         == NextCount(FailuresSince(h, id), id, e)
  {
    assert (h + [e])[..|h|] == h;
  }

  lemma DropAppended(max: nat, h: seq<Entry>, e: Entry)
    requires DropsDecided(max, h) && (e.Drop? ==> BudgetUsedUp(max, h, e.id))
    ensures DropsDecided(max, h + [e])
  {
    var r := h + [e];
    forall k | 0 <= k < |r| && r[k].Drop?
      ensures BudgetUsedUp(max, r[..k], r[k].id)
    {
      if k < |h| { assert r[..k] == h[..k] && r[k] == h[k]; } else { assert r[..k] == h; }
    }
  }

  /** About to write a tombstone. */
  predicate Buries(k: Worker) { k.Busy? && k.job.Dropping? }

  /** A step that writes `e` into the history. */
  lemma EntryCounted(max: nat, s: State, s': State, e: Entry)
    requires Counted(max, s) && s'.history == s.history + [e]
    requires forall v: nat | Buries(s'.WorkerAt(v)) ::
      s'.WorkerAt(v) == s.WorkerAt(v) || (e == Failure(s'.WorkerAt(v).job.m.id) && s'.Attempts(e.id) >= max)
    requires forall id: Id :: s'.Attempts(id) == NextCount(s.Attempts(id), id, e)
    requires e.Drop? ==> BudgetUsedUp(max, s.history, e.id)
    ensures Counted(max, s')
  {
    forall id: Id
      ensures s'.Attempts(id) == FailuresSince(s'.history, id)
    {
      Appended(s.history, e, id);
    }
    DropAppended(max, s.history, e);
    forall v: nat
      ensures Decided(max, s'.history, s'.WorkerAt(v))
    {
      var k := s'.WorkerAt(v);
      if Buries(k) {
        if k == s.WorkerAt(v) {
          assert Decided(max, s.history, s.WorkerAt(v));
          UsedUpStays(max, s.history, e, k.job.m.id);
        } else {
          assert s'.history[..|s'.history|] == s'.history;
          assert s'.history[|s'.history| - 1] == Failure(k.job.m.id);
        }
      }
    }
  }

  lemma QuietCounted(max: nat, s: State, s': State)
    requires Counted(max, s) && s'.history == s.history && s'.attempts == s.attempts
    requires forall v: nat :: s'.WorkerAt(v) == s.WorkerAt(v) || !(s'.WorkerAt(v).Busy? && s'.WorkerAt(v).job.Dropping?)
    ensures Counted(max, s')
  {
    forall v: nat
      ensures Decided(max, s'.history, s'.WorkerAt(v))
    {
      assert Decided(max, s.history, s.WorkerAt(v));
    }
    forall id: Id
      ensures s'.Attempts(id) == FailuresSince(s'.history, id)
    {
      assert s.Attempts(id) == FailuresSince(s.history, id);
    }
  }

  lemma MarkCounted(max: nat, s: State, w: nat, ok: bool)
    requires Counted(max, s)
    ensures Counted(max, Do(max, s, MarkIndexed(w, ok)))
  {
    var k := s.WorkerAt(w);
    if k.Busy? && k.job.Upserted? && ok {
      EntryCounted(max, s, Do(max, s, MarkIndexed(w, ok)), Indexed(k.job.m.id));
    } else {
      QuietCounted(max, s, Do(max, s, MarkIndexed(w, ok)));
    }
  }

  lemma IncrementCounted(max: nat, s: State, w: nat, ok: bool)
    requires Counted(max, s)
    ensures Counted(max, Do(max, s, Increment(w, ok)))
  {
    var k := s.WorkerAt(w);
    if k.Busy? && k.job.Failing? && ok {
      EntryCounted(max, s, Do(max, s, Increment(w, ok)), Failure(k.job.m.id));
    } else {
      QuietCounted(max, s, Do(max, s, Increment(w, ok)));
    }
  }

  lemma TombstoneCounted(max: nat, s: State, w: nat, ok: bool)
    requires Counted(max, s)
    ensures Counted(max, Do(max, s, Tombstone(w, ok)))
  {
    var k := s.WorkerAt(w);
    if k.Busy? && k.job.Dropping? && ok {
      assert Decided(max, s.history, k);
      EntryCounted(max, s, Do(max, s, Tombstone(w, ok)), Drop(k.job.m.id, s.Row(k.job.m.id)));
    } else {
      QuietCounted(max, s, Do(max, s, Tombstone(w, ok)));
    }
  }

  lemma PersistCounted(max: nat, s: State, m: Message)
    requires Counted(max, s)
    ensures Counted(max, Do(max, s, Persist(m)))
  {
    if m.id != "" && m.body != "" {
      EntryCounted(max, s, Do(max, s, Persist(m)), Stored(m.id, m));
    }
  }

  lemma StepCounted(max: nat, s: State, a: Action)
    requires Counted(max, s)
    ensures Counted(max, Do(max, s, a))
  {
    match a
    case MarkIndexed(w, ok) => MarkCounted(max, s, w, ok);
    case Increment(w, ok) => IncrementCounted(max, s, w, ok);
    case Tombstone(w, ok) => TombstoneCounted(max, s, w, ok);
    case Persist(m) => PersistCounted(max, s, m);
    case _ => QuietCounted(max, s, Do(max, s, a));
  }

  /** With any number of workers and crashes, a drop is decided only when a failure
      has just brought the counter to at least `max`. */
  lemma {:induction false} DropsAreDecided(max: nat, actions: seq<Action>)
    ensures Counted(max, Run(max, BOOT, actions))
    ensures DropsDecided(max, Run(max, BOOT, actions).history)
  {
    if actions != [] {
      DropsAreDecided(max, actions[..|actions| - 1]);
      StepCounted(max, Run(max, BOOT, actions[..|actions| - 1]), actions[|actions| - 1]);
    }
  }

  /* ----- the budget holds for one worker, and for one only ----- */

  /** The actions of a pipeline with `n` workers. */
  predicate UsesWorkers(actions: seq<Action>, n: nat) {
    forall a <- actions :: !a.Persist? && !a.Nudge? && !a.Crash? ==> a.w < n
  }

  ghost predicate SoloBudget(max: nat, s: State) {
    && DropsInBudget(max, s.history)
    && (forall id: Id :: s.Attempts(id) == FailuresSince(s.history, id))
    && (s.WorkerAt(0).Busy? && s.WorkerAt(0).job.Dropping? ==> s.Attempts(s.WorkerAt(0).job.m.id) >= max)
    && (forall w: nat | w > 0 :: s.WorkerAt(w) == Resting([]))
  }

  lemma BudgetAppended(max: nat, h: seq<Entry>, e: Entry)
    requires DropsInBudget(max, h) && (e.Drop? ==> FailuresSince(h, e.id) >= max)
    ensures DropsInBudget(max, h + [e])
  {
    var r := h + [e];
    forall k | 0 <= k < |r| && r[k].Drop?
      ensures FailuresSince(r[..k], r[k].id) >= max
    {
      if k < |h| { assert r[..k] == h[..k] && r[k] == h[k]; } else { assert r[..k] == h; }
    }
  }

  lemma SoloEntry(max: nat, s: State, s': State, e: Entry)
    requires SoloBudget(max, s) && s'.history == s.history + [e]
    requires forall v: nat | v != 0 :: s'.WorkerAt(v) == s.WorkerAt(v)
    requires s'.WorkerAt(0).Busy? && s'.WorkerAt(0).job.Dropping? ==> s'.Attempts(s'.WorkerAt(0).job.m.id) >= max
    requires forall id: Id :: s'.Attempts(id) == NextCount(s.Attempts(id), id, e)
    requires e.Drop? ==> s.Attempts(e.id) >= max
    ensures SoloBudget(max, s')
  {
    forall id: Id
      ensures s'.Attempts(id) == FailuresSince(s'.history, id)
    {
      Appended(s.history, e, id);
    }
    BudgetAppended(max, s.history, e);
  }

  lemma OthersRest(max: nat, s: State, a: Action)
    requires forall w: nat | w > 0 :: s.WorkerAt(w) == Resting([])
    requires !a.Persist? && !a.Nudge? && !a.Crash? ==> a.w == 0
    ensures forall w: nat | w > 0 :: Do(max, s, a).WorkerAt(w) == Resting([])
  {
    var s' := Do(max, s, a);
    forall w: nat | w > 0
      ensures s'.WorkerAt(w) == Resting([])
    {
      assert s.WorkerAt(w) == Resting([]);
      assert a.Crash? || s'.WorkerAt(w) == s.WorkerAt(w);
    }
  }

  lemma SoloMark(max: nat, s: State, ok: bool)
    requires SoloBudget(max, s)
    ensures SoloBudget(max, Do(max, s, MarkIndexed(0, ok)))
  {
    var k, s' := s.WorkerAt(0), Do(max, s, MarkIndexed(0, ok));
    OthersRest(max, s, MarkIndexed(0, ok));
    if ok && k.Busy? && k.job.Upserted? {
      SoloEntry(max, s, s', Indexed(k.job.m.id));
    } else {
      SoloQuiet(max, s, s');
    }
  }

  lemma SoloIncrement(max: nat, s: State, ok: bool)
    requires SoloBudget(max, s)
    ensures SoloBudget(max, Do(max, s, Increment(0, ok)))
  {
    var k, s' := s.WorkerAt(0), Do(max, s, Increment(0, ok));
    OthersRest(max, s, Increment(0, ok));
    if ok && k.Busy? && k.job.Failing? {
      SoloEntry(max, s, s', Failure(k.job.m.id));
    } else {
      SoloQuiet(max, s, s');
    }
  }

  lemma SoloTombstone(max: nat, s: State, ok: bool)
    requires SoloBudget(max, s)
    ensures SoloBudget(max, Do(max, s, Tombstone(0, ok)))
  {
    var k, s' := s.WorkerAt(0), Do(max, s, Tombstone(0, ok));
    OthersRest(max, s, Tombstone(0, ok));
    if ok && k.Busy? && k.job.Dropping? {
      SoloEntry(max, s, s', Drop(k.job.m.id, s.Row(k.job.m.id)));
    } else {
      SoloQuiet(max, s, s');
    }
  }

  lemma SoloPersist(max: nat, s: State, m: Message)
    requires SoloBudget(max, s)
    ensures SoloBudget(max, Do(max, s, Persist(m)))
  {
    if m.id != "" && m.body != "" {
      SoloEntry(max, s, Do(max, s, Persist(m)), Stored(m.id, m));
    }
  }

  lemma SoloStep(max: nat, s: State, a: Action)
    requires SoloBudget(max, s) && UsesWorkers([a], 1)
    ensures SoloBudget(max, Do(max, s, a))
  {
    assert a in [a];
    match a
    case MarkIndexed(_, ok) => SoloMark(max, s, ok);
    case Increment(_, ok) => SoloIncrement(max, s, ok);
    case Tombstone(_, ok) => SoloTombstone(max, s, ok);
    case Persist(m) => SoloPersist(max, s, m);
    case _ =>
      OthersRest(max, s, a);
      SoloQuiet(max, s, Do(max, s, a));
  }

  lemma SoloQuiet(max: nat, s: State, s': State)
    requires SoloBudget(max, s) && s'.history == s.history && s'.attempts == s.attempts
    requires forall w: nat | w > 0 :: s'.WorkerAt(w) == Resting([])
    requires s'.WorkerAt(0) == s.WorkerAt(0) || !(s'.WorkerAt(0).Busy? && s'.WorkerAt(0).job.Dropping?)
    ensures SoloBudget(max, s')
  {
    forall id: Id
      ensures s'.Attempts(id) == FailuresSince(s'.history, id)
    {
      assert s.Attempts(id) == FailuresSince(s.history, id);
    }
  }

  lemma {:induction false} SoloRun(max: nat, actions: seq<Action>)
    requires UsesWorkers(actions, 1)
    ensures SoloBudget(max, Run(max, BOOT, actions))
  {
    if actions != [] {
      var front, last := actions[..|actions| - 1], actions[|actions| - 1];
      assert forall a <- front :: a in actions;
      assert last in actions;
      SoloRun(max, front);
      SoloStep(max, Run(max, BOOT, front), last);
    }
  }

  const POISON: Message := Message("m", "body")
  const FRESH: Message := Message("m", "another body")

  /** One message pending, `j` failures so far, worker 0 in state `k`. */
  ghost predicate Stuck(s: State, j: nat, k: Worker) {
    s.pending == map["m" := POISON] && s.Attempts("m") == j && s.WorkerAt(0) == k
  }

  lemma RunMore(max: nat, actions: seq<Action>, a: Action)
    ensures Run(max, BOOT, actions + [a]) == Do(max, Run(max, BOOT, actions), a)
  {
    assert (actions + [a])[..|actions|] == actions;
  }

  lemma RunOne(max: nat, actions: seq<Action>, a: Action, n: nat) returns (more: seq<Action>)
    requires UsesWorkers(actions, n) && UsesWorkers([a], n)
    ensures UsesWorkers(more, n) && Run(max, BOOT, more) == Do(max, Run(max, BOOT, actions), a)
  {
    more := actions + [a];
    assert a in [a];
    RunMore(max, actions, a);
  }

  lemma LoadedBy0(max: nat, s: State, j: nat)
    requires Stuck(s, j, Resting([]))
    ensures var t := Do(max, s, Load(0, [POISON])); Stuck(t, j, Resting([POISON])) && t.WorkerAt(1) == s.WorkerAt(1)
  {}

  lemma StartedBy0(max: nat, s: State, j: nat)
    requires Stuck(s, j, Resting([POISON]))
    ensures var t := Do(max, s, NextInBatch(0)); Stuck(t, j, Busy(Start(POISON), [])) && t.WorkerAt(1) == s.WorkerAt(1)
  {
    assert [POISON][1..] == [];
  }

  lemma FailedBy0(max: nat, s: State, j: nat)
    requires Stuck(s, j, Busy(Start(POISON), []))
    ensures var t := Do(max, s, Embed(0, false)); Stuck(t, j, Busy(Failing(POISON), [])) && t.WorkerAt(1) == s.WorkerAt(1)
  {}

  lemma CountedBy0(max: nat, s: State, j: nat)
    requires Stuck(s, j, Busy(Failing(POISON), []))
    ensures var t := Do(max, s, Increment(0, true));
      && Stuck(t, j + 1, if j + 1 < max then Resting([]) else Busy(Dropping(POISON), []))
      && t.WorkerAt(1) == s.WorkerAt(1)
  {}

  /** The message is persisted; with a second worker, that one has loaded it. */
  lemma Begin(max: nat, n: nat) returns (actions: seq<Action>)
    requires 1 <= n <= 2
    ensures UsesWorkers(actions, n) && Stuck(Run(max, BOOT, actions), 0, Resting([]))
    ensures n == 2 ==> Run(max, BOOT, actions).WorkerAt(1) == Busy(Start(POISON), [])
  {
    actions := RunOne(max, [], Persist(POISON), n);
    if n == 2 {
      actions := RunOne(max, actions, Load(1, [POISON]), n);
      actions := RunOne(max, actions, NextInBatch(1), n);
      assert [POISON][1..] == [];
    }
  }

  /** Worker 0 fails `j` times, the last time up to its increment. */
  lemma {:induction false} FailTimes(max: nat, n: nat, j: nat) returns (actions: seq<Action>)
    requires j <= max && 1 <= n <= 2
    ensures UsesWorkers(actions, n)
    ensures Stuck(Run(max, BOOT, actions), j, if j < max || j == 0 then Resting([]) else Busy(Dropping(POISON), []))
    ensures n == 2 ==> Run(max, BOOT, actions).WorkerAt(1) == Busy(Start(POISON), [])
  {
    if j == 0 {
      actions := Begin(max, n);
    } else {
      actions := FailTimes(max, n, j - 1);
      LoadedBy0(max, Run(max, BOOT, actions), j - 1);
      actions := RunOne(max, actions, Load(0, [POISON]), n);
      StartedBy0(max, Run(max, BOOT, actions), j - 1);
      actions := RunOne(max, actions, NextInBatch(0), n);
      FailedBy0(max, Run(max, BOOT, actions), j - 1);
      actions := RunOne(max, actions, Embed(0, false), n);
      CountedBy0(max, Run(max, BOOT, actions), j - 1);
      actions := RunOne(max, actions, Increment(0, true), n);
    }
  }

  /** Worker 1 indexes the message, which clears the counter. */
  lemma Overtake(max: nat, s: State, j: nat)
    requires Stuck(s, j, Busy(Dropping(POISON), [])) && s.WorkerAt(1) == Busy(Start(POISON), [])
    ensures var t := Do(max, Do(max, Do(max, s, Embed(1, true)), Upsert(1, true)), MarkIndexed(1, true));
      t.WorkerAt(0) == Busy(Dropping(POISON), []) && t.history == s.history + [Indexed("m")]
  {}

  /** The id is enqueued again, then worker 0 writes its tombstone: the new row goes. */
  lemma Wipe(max: nat, s: State)
    requires s.WorkerAt(0) == Busy(Dropping(POISON), [])
    ensures var t := Do(max, s, Persist(FRESH)); var u := Do(max, t, Tombstone(0, true));
      && t.Row("m") == Some(FRESH) && u.Row("m") == None
      && u.history == s.history + [Stored("m", FRESH)] + [Drop("m", Some(FRESH))]
  {}

  /** The last thing that happened is that row `m` was deleted as poison, and nothing has
      failed since it was enqueued. */
  ghost predicate DroppedUntried(h: seq<Entry>, m: Message) {
    exists before :: h == before + [Stored(m.id, m)] + [Drop(m.id, Some(m))]
  }

  /** Two workers: one uses up the budget and pauses before the tombstone, the other
      indexes the message and clears the counter, the id is enqueued again, and the
      tombstone deletes the new row, which nobody ever tried, with the counter at zero. */
  lemma FreshRowDropped(max: nat) returns (actions: seq<Action>)
    requires max >= 1
    ensures UsesWorkers(actions, 2)
    ensures DroppedUntried(Run(max, BOOT, actions).history, FRESH)
    ensures var h := Run(max, BOOT, actions).history;
      FailuresSince(h[..|h| - 1], FRESH.id) == 0 && !DropsInBudget(max, h)
  {
    var a0 := FailTimes(max, 2, max);
    var s0 := Run(max, BOOT, a0);
    Overtake(max, s0, max);
    var a1 := RunOne(max, a0, Embed(1, true), 2);
    var a2 := RunOne(max, a1, Upsert(1, true), 2);
    var a3 := RunOne(max, a2, MarkIndexed(1, true), 2);
    var s3 := Run(max, BOOT, a3);
    Wipe(max, s3);
    var a4 := RunOne(max, a3, Persist(FRESH), 2);
    actions := RunOne(max, a4, Tombstone(0, true), 2);
    OutOfBudget(max, s0.history);
    var h2 := s0.history + [Indexed("m")] + [Stored("m", FRESH)];
    assert (h2 + [Drop("m", Some(FRESH))])[..|h2|] == h2;
  }

  /** One worker is enough to delete a row that nobody ever tried: the budget is used up,
      the id is enqueued again before the tombstone, and the tombstone takes the new row. */
  lemma ReplacedRowDropped(max: nat) returns (actions: seq<Action>)
    requires max >= 1
    ensures UsesWorkers(actions, 1)
    ensures DroppedUntried(Run(max, BOOT, actions).history, FRESH)
  {
    var a0 := FailTimes(max, 1, max);
    Wipe(max, Run(max, BOOT, a0));
    var a1 := RunOne(max, a0, Persist(FRESH), 1);
    actions := RunOne(max, a1, Tombstone(0, true), 1);
  }

  lemma OutOfBudget(max: nat, h: seq<Entry>)
    requires max >= 1
    ensures var h2 := h + [Indexed("m")] + [Stored("m", FRESH)];
      FailuresSince(h2, "m") == 0 && !DropsInBudget(max, h2 + [Drop("m", Some(FRESH))])
  {
    var h1 := h + [Indexed("m")];
    var h2 := h1 + [Stored("m", FRESH)];
    var h3 := h2 + [Drop("m", Some(FRESH))];
    Appended(h, Indexed("m"), "m");
    Appended(h1, Stored("m", FRESH), "m");
    assert h3[..|h2|] == h2 && h3[|h2|] == Drop("m", Some(FRESH));
  }

  lemma MoreWorkers(actions: seq<Action>, m: nat, n: nat)
    requires UsesWorkers(actions, m) && m <= n
    ensures UsesWorkers(actions, n)
  {}

  /** "The counter of the id stands at maxAttempts or more" holds of every drop in every
      run exactly when the pipeline has a single worker. */
  lemma BudgetExactlyForOneWorker(max: nat, n: nat)
    requires max >= 1 && n >= 1
    ensures (forall actions: seq<Action> | UsesWorkers(actions, n) :: DropsInBudget(max, Run(max, BOOT, actions).history))
       <==> n == 1
  {
    if n == 1 {
      forall actions: seq<Action> | UsesWorkers(actions, n)
        ensures DropsInBudget(max, Run(max, BOOT, actions).history)
      {
        SoloRun(max, actions);
      }
    } else {
      var actions := FreshRowDropped(max);
      MoreWorkers(actions, 2, n);
    }
  }

  /* ----- the code, one worker running alone ----- */

  /** A state some interleaving leads to. */
  ghost predicate Reachable(max: nat, s: State) {
    exists actions: seq<Action> :: s == Run(max, BOOT, actions)
  }

  lemma StepReachable(max: nat, s: State, a: Action)
    requires Reachable(max, s)
    ensures Reachable(max, Do(max, s, a))
  {
    var actions: seq<Action> :| s == Run(max, BOOT, actions);
    RunMore(max, actions, a);
  }

  lemma ReachableSafe(max: nat, s: State)
    requires Reachable(max, s)
    ensures Safe(s) && DropsDecided(max, s.history)
  {
    var actions: seq<Action> :| s == Run(max, BOOT, actions);
    NothingLost(max, actions);
    DropsAreDecided(max, actions);
  }

  /** Rows lie under their own ids. */
  ghost predicate Keyed(pending: map<Id, Message>) { forall id <- pending :: pending[id].id == id }

  lemma StepKeyed(max: nat, s: State, a: Action)
    requires Keyed(s.pending)
    ensures Keyed(Do(max, s, a).pending)
  {}

  lemma {:induction false} RunKeyed(max: nat, actions: seq<Action>)
    ensures Keyed(Run(max, BOOT, actions).pending)
  {
    if actions != [] {
      RunKeyed(max, actions[..|actions| - 1]);
      StepKeyed(max, Run(max, BOOT, actions[..|actions| - 1]), actions[|actions| - 1]);
    }
  }

  lemma ReachableKeyed(max: nat, s: State)
    requires Reachable(max, s)
    ensures Keyed(s.pending)
  {
    var actions: seq<Action> :| s == Run(max, BOOT, actions);
    RunKeyed(max, actions);
  }

  function Drops(h: seq<Entry>): nat {
    if h == [] then 0 else Drops(h[..|h| - 1]) + (if h[|h| - 1].Drop? then 1 else 0)
  }

  lemma DropsAppended(h: seq<Entry>, e: Entry)
    ensures Drops(h + [e]) == Drops(h) + (if e.Drop? then 1 else 0)
  {
    assert (h + [e])[..|h|] == h;
  }

  /** The fields of the code, and the drops in the history. */
  ghost predicate Shows(
    s: State, pending: map<Id, Message>, attempts: map<Id, nat>, index: map<Id, Message>, chan: seq<Message>, dropped: nat)
  {
    s.pending == pending && s.attempts == attempts && s.index == index && s.chan == chan && Drops(s.history) == dropped
  }

  lemma AfterPersist(max: nat, s: State, m: Message) returns (t: State)
    requires Reachable(max, s) && m.id != "" && m.body != ""
    ensures Reachable(max, t)
    ensures Shows(t, s.pending[m.id := m], s.attempts, s.index, s.chan, Drops(s.history))
    ensures Stored(m.id, m) in t.history
  {
    StepReachable(max, s, Persist(m));
    DropsAppended(s.history, Stored(m.id, m));
    t := Do(max, s, Persist(m));
  }

  lemma AfterNudge(max: nat, s: State, m: Message) returns (t: State)
    requires Reachable(max, s) && Stored(m.id, m) in s.history
    ensures Reachable(max, t)
    ensures Shows(t, s.pending, s.attempts, s.index, if |s.chan| < CHANNEL_CAP then s.chan + [m] else s.chan, Drops(s.history))
    ensures t.history == s.history
  {
    StepReachable(max, s, Nudge(m));
    t := Do(max, s, Nudge(m));
  }

  lemma AfterTake(max: nat, s: State, w: nat) returns (t: State)
    requires Reachable(max, s) && s.WorkerAt(w) == Resting([]) && s.chan != []
    ensures Reachable(max, t) && t.WorkerAt(w) == Busy(Start(s.chan[0]), [])
    ensures Shows(t, s.pending, s.attempts, s.index, s.chan[1..], Drops(s.history))
  {
    StepReachable(max, s, Take(w));
    t := Do(max, s, Take(w));
  }

  /** Rows of the backlog, at most a batch. */
  ghost predicate FromBacklog(pending: map<Id, Message>, batch: seq<Message>) {
    |batch| <= BATCH && forall m <- batch :: m.id in pending && pending[m.id] == m
  }

  /** Different rows, and all there are or sixteen of them. */
  ghost predicate FullBatch(pending: map<Id, Message>, batch: seq<Message>) {
    && (forall i, j | 0 <= i < j < |batch| :: batch[i].id != batch[j].id)
    && |batch| == if |pending| < 16 then |pending| else 16
  }

  lemma AfterLoad(max: nat, s: State, w: nat, batch: seq<Message>) returns (t: State)
    requires Reachable(max, s) && s.WorkerAt(w) == Resting([]) && FromBacklog(s.pending, batch)
    ensures Reachable(max, t) && t.WorkerAt(w) == Resting(batch)
    ensures Shows(t, s.pending, s.attempts, s.index, s.chan, Drops(s.history))
  {
    StepReachable(max, s, Load(w, batch));
    t := Do(max, s, Load(w, batch));
  }

  lemma AfterNext(max: nat, s: State, w: nat, rest: seq<Message>) returns (t: State)
    requires Reachable(max, s) && s.WorkerAt(w) == Resting(rest) && rest != []
    ensures Reachable(max, t) && t.WorkerAt(w) == Busy(Start(rest[0]), rest[1..])
    ensures Shows(t, s.pending, s.attempts, s.index, s.chan, Drops(s.history))
  {
    StepReachable(max, s, NextInBatch(w));
    t := Do(max, s, NextInBatch(w));
  }

  lemma AfterEmbed(max: nat, s: State, w: nat, m: Message, rest: seq<Message>, ok: bool) returns (t: State)
    requires Reachable(max, s) && s.WorkerAt(w) == Busy(Start(m), rest)
    ensures Reachable(max, t) && t.WorkerAt(w) == Busy(if ok then Embedded(m) else Failing(m), rest)
    ensures Shows(t, s.pending, s.attempts, s.index, s.chan, Drops(s.history))
  {
    StepReachable(max, s, Embed(w, ok));
    t := Do(max, s, Embed(w, ok));
  }

  lemma AfterUpsert(max: nat, s: State, w: nat, m: Message, rest: seq<Message>, ok: bool) returns (t: State)
    requires Reachable(max, s) && s.WorkerAt(w) == Busy(Embedded(m), rest)
    ensures Reachable(max, t) && t.WorkerAt(w) == Busy(if ok then Upserted(m) else Failing(m), rest)
    ensures Shows(t, s.pending, s.attempts, if ok then s.index[m.id := m] else s.index, s.chan, Drops(s.history))
  {
    StepReachable(max, s, Upsert(w, ok));
    t := Do(max, s, Upsert(w, ok));
  }

  lemma AfterMark(max: nat, s: State, w: nat, m: Message, rest: seq<Message>, ok: bool) returns (t: State)
    requires Reachable(max, s) && s.WorkerAt(w) == Busy(Upserted(m), rest)
    ensures Reachable(max, t) && t.WorkerAt(w) == Resting(rest)
    ensures ok ==> Shows(t, s.pending - {m.id}, s.attempts - {m.id}, s.index, s.chan, Drops(s.history))
    ensures !ok ==> Shows(t, s.pending, s.attempts, s.index, s.chan, Drops(s.history))
  {
    DropsAppended(s.history, Indexed(m.id));
    StepReachable(max, s, MarkIndexed(w, ok));
    t := Do(max, s, MarkIndexed(w, ok));
  }

  lemma IncrementIs(max: nat, s: State, w: nat, m: Message, rest: seq<Message>)
    requires s.WorkerAt(w) == Busy(Failing(m), rest)
    ensures Do(max, s, Increment(w, false)) == s.With(w, Resting(rest))
    ensures var n := s.Attempts(m.id) + 1;
      Do(max, s, Increment(w, true))
      == s.(attempts := s.attempts[m.id := n], history := s.history + [Failure(m.id)])
          .With(w, if n < max then Resting(rest) else Busy(Dropping(m), rest))
  {}

  lemma AfterIncrement(max: nat, s: State, w: nat, m: Message, rest: seq<Message>, ok: bool) returns (t: State)
    requires Reachable(max, s) && s.WorkerAt(w) == Busy(Failing(m), rest)
    ensures Reachable(max, t)
    ensures t.WorkerAt(w) == if ok && s.Attempts(m.id) + 1 >= max then Busy(Dropping(m), rest) else Resting(rest)
    ensures ok ==> Shows(t, s.pending, s.attempts[m.id := s.Attempts(m.id) + 1], s.index, s.chan, Drops(s.history))
    ensures !ok ==> Shows(t, s.pending, s.attempts, s.index, s.chan, Drops(s.history))
  {
    DropsAppended(s.history, Failure(m.id));
    StepReachable(max, s, Increment(w, ok));
    IncrementIs(max, s, w, m, rest);
    if ok {
      t := Do(max, s, Increment(w, true));
    } else {
      t := Do(max, s, Increment(w, false));
    }
  }

  lemma AfterTombstone(max: nat, s: State, w: nat, m: Message, rest: seq<Message>, ok: bool) returns (t: State)
    requires Reachable(max, s) && s.WorkerAt(w) == Busy(Dropping(m), rest)
    ensures Reachable(max, t) && t.WorkerAt(w) == Resting(rest)
    ensures ok ==> Shows(t, s.pending - {m.id}, s.attempts - {m.id}, s.index, s.chan, Drops(s.history) + 1)
    ensures !ok ==> Shows(t, s.pending, s.attempts, s.index, s.chan, Drops(s.history))
  {
    DropsAppended(s.history, Drop(m.id, s.Row(m.id)));
    StepReachable(max, s, Tombstone(w, ok));
    t := Do(max, s, Tombstone(w, ok));
  }

  datatype Verdict = Done | Retry | Poison | StoreError

  /** The store's side of the pipeline as its fields show it. */
  datatype View = View(pending: map<Id, Message>, attempts: map<Id, nat>, index: map<Id, Message>, dropped: nat)
  {
    function Attempts(id: Id): nat { if id in attempts then attempts[id] else 0 }

    function Cleared(id: Id): View { this.(pending := pending - {id}, attempts := attempts - {id}) }

    function Bumped(id: Id): View { this.(attempts := attempts[id := Attempts(id) + 1]) }
  }

  /** Which of the calls that process makes succeed. */
  datatype Ports = Ports(embed: bool, upsert: bool, mark: bool, count: bool, bury: bool)

  /** What a failure of message `m` does, whatever its cause: nothing when it cannot
      be counted, a retry below the budget, at the budget the tombstone, and only
      the count when the tombstone cannot be written. */
  ghost predicate Failed(max: nat, v: View, v': View, m: Message, p: Ports, r: Verdict) {
    if !p.count then r == StoreError && v' == v
    else if v.Attempts(m.id) + 1 < max then r == Retry && v' == v.Bumped(m.id)
    else if p.bury then r == Poison && v' == v.Bumped(m.id).Cleared(m.id).(dropped := v.dropped + 1)
    else r == StoreError && v' == v.Bumped(m.id)
  }

  /** What one call of process does: indexed and cleared; or indexed with the row
      left behind; or a failure. */
  ghost predicate Processed(max: nat, v: View, v': View, m: Message, p: Ports, r: Verdict) {
    if !p.embed || !p.upsert then Failed(max, v, v', m, p, r)
    else if p.mark then r == Done && v' == v.Cleared(m.id).(index := v.index[m.id := m])
    else r == StoreError && v' == v.(index := v.index[m.id := m])
  }

  /** What working off a batch does: one message after the other. */
  ghost predicate Worked(max: nat, v: View, batch: seq<Message>, ps: nat -> Ports, v': View) {
    if batch == [] then v' == v
    else
      var n := |batch| - 1;
      exists mid, r :: Worked(max, v, batch[..n], ps, mid) && Processed(max, mid, v', batch[n], ps(n), r)
  }

  lemma WorkedMore(max: nat, v: View, batch: seq<Message>, ps: nat -> Ports, mid: View, m: Message, v': View, r: Verdict)
    requires Worked(max, v, batch, ps, mid) && Processed(max, mid, v', m, ps(|batch|), r)
    ensures Worked(max, v, batch + [m], ps, v')
  {
    var more := batch + [m];
    assert more[..|batch|] == batch && more[|batch|] == m;
    assert Worked(max, v, more[..|more| - 1], ps, mid) && Processed(max, mid, v', more[|more| - 1], ps(|more| - 1), r);
  }

  /** As long as every call succeeds, all rows of a batch end up in the index and none of
      them stays. */
  lemma {:induction false} HealthyBatch(max: nat, v: View, batch: seq<Message>, ps: nat -> Ports, v': View, i: nat)
    requires Worked(max, v, batch, ps, v') && i < |batch|
    requires forall k: nat :: ps(k).embed && ps(k).upsert && ps(k).mark
    requires forall j, k | 0 <= j < k < |batch| :: batch[j].id != batch[k].id
    ensures batch[i].id !in v'.pending && batch[i].id in v'.index && v'.index[batch[i].id] == batch[i]
    ensures v'.dropped == v.dropped
    decreases |batch|
  {
    var n := |batch| - 1;
    var mid, r :| Worked(max, v, batch[..n], ps, mid) && Processed(max, mid, v', batch[n], ps(n), r);
    if i < n {
      HealthyBatch(max, v, batch[..n], ps, mid, i);
    } else if n > 0 {
      HealthyBatch(max, v, batch[..n], ps, mid, 0);
    }
  }

  /** Message `m` is processed `k` times and cannot be embedded; the store works. */
  ghost predicate FailsTimes(max: nat, v: View, m: Message, k: nat, v': View) {
    if k == 0 then v' == v
    else exists mid, r :: FailsTimes(max, v, m, k - 1, mid) && Processed(max, mid, v', m, Ports(false, false, false, true, true), r)
  }

  /** A row that cannot be embedded is tried exactly as often as its budget says: it stays
      before that, and is dropped and counted with the last failure. */
  lemma {:induction false} DroppedAtBudget(max: nat, v: View, m: Message, k: nat, v': View)
    requires FailsTimes(max, v, m, k, v') && k <= max && v.Attempts(m.id) == 0
    ensures k < max ==> v'.pending == v.pending && v'.Attempts(m.id) == k && v'.dropped == v.dropped
    ensures 0 < k == max ==> v'.pending == v.pending - {m.id} && v'.Attempts(m.id) == 0 && v'.dropped == v.dropped + 1
    ensures v'.index == v.index
  {
    if k > 0 {
      var mid, r :| FailsTimes(max, v, m, k - 1, mid) && Processed(max, mid, v', m, Ports(false, false, false, true, true), r);
      DroppedAtBudget(max, v, m, k - 1, mid);
    }
  }

  /** The pipeline's store, index and channel. `st` is the same state with its
      history and its workers: the code makes the actions of the state machine in
      the order the source makes its calls. */
  class Pipeline {
    const max: nat
    var started: bool
    var pending: map<Id, Message>
    var attempts: map<Id, nat>
    var index: map<Id, Message>
    var chan: seq<Message>
    var dropped: nat
    ghost var st: State

    ghost predicate Valid()
      reads this
    {
      Reachable(max, st) && Shows(st, pending, attempts, index, chan, dropped)
    }

    function Now(): View
      reads this
    {
      View(pending, attempts, index, dropped)
    }

    constructor (maxAttempts: int)
      ensures max == (if maxAttempts <= 0 then 5 else maxAttempts) && Valid() && !started
      ensures Now() == View(map[], map[], map[], 0) && chan == []
    {
      max := if maxAttempts <= 0 then 5 else maxAttempts;
      started := false;
      pending, attempts, index, chan, dropped := map[], map[], map[], [], 0;
      st := BOOT;
      new;
      assert BOOT == Run(max, BOOT, []);
    }

    /** Start, on a process that has just come up: the channel is new. */
    method Start()
      requires Valid()
      modifies this
      ensures Valid() && started && Now() == old(Now())
      ensures !old(started) ==> chan == [] && st == Do(max, old(st), Crash)
    {
      if !started {
        chan := [];
        started := true;
        StepReachable(max, st, Crash);
        st := Do(max, st, Crash);
      }
    }

    /** Enqueue: persist first, then nudge without blocking. `stores` says whether the
        durable write succeeds. */
    method Enqueue(m: Message, stores: bool) returns (ok: bool)
      requires Valid()
      modifies this
      ensures Valid()
      ensures ok == (started && m.id != "" && m.body != "" && stores)
      ensures !ok ==> Now() == old(Now()) && chan == old(chan) && st == old(st)
      ensures ok ==> Now() == old(Now()).(pending := old(pending)[m.id := m]) && Stored(m.id, m) in st.history
      ensures ok ==> chan == if |old(chan)| < 256 then old(chan) + [m] else old(chan)
    {
      if !started || m.id == "" || m.body == "" {
        return false;
      }
      if !stores {
        return false;
      }
      pending := pending[m.id := m];
      st := AfterPersist(max, st, m);
      if |chan| < CHANNEL_CAP {
        chan := chan + [m];
      }
      st := AfterNudge(max, st, m);
      return true;
    }

    /** process: embed, upsert, mark. */
    method Process(ghost w: nat, m: Message, ghost rest: seq<Message>, p: Ports) returns (r: Verdict)
      requires Valid() && st.WorkerAt(w) == Busy(Job.Start(m), rest)
      modifies this`pending, this`attempts, this`index, this`dropped, this`st
      ensures Valid() && st.WorkerAt(w) == Resting(rest)
      ensures Processed(max, old(Now()), Now(), m, p, r)
    {
      st := AfterEmbed(max, st, w, m, rest, p.embed);
      if !p.embed {
        r := Fail(w, m, rest, p);
        return;
      }
      if p.upsert {
        index := index[m.id := m];
      }
      st := AfterUpsert(max, st, w, m, rest, p.upsert);
      if !p.upsert {
        r := Fail(w, m, rest, p);
        return;
      }
      if p.mark {
        pending, attempts := pending - {m.id}, attempts - {m.id};
      }
      st := AfterMark(max, st, w, m, rest, p.mark);
      r := if p.mark then Done else StoreError;
    }

    /** fail: bump the counter; at the budget, drop. */
    method Fail(ghost w: nat, m: Message, ghost rest: seq<Message>, p: Ports) returns (r: Verdict)
      requires Valid() && st.WorkerAt(w) == Busy(Failing(m), rest)
      modifies this`pending, this`attempts, this`dropped, this`st
      ensures Valid() && st.WorkerAt(w) == Resting(rest)
      ensures Failed(max, old(Now()), Now(), m, p, r)
    {
      var n := IncrementAttempts(w, m, rest, p.count);
      if n.None? {
        return StoreError;
      }
      if n.value < max {
        return Retry;
      }
      r := PoisonDrop(w, m, rest, p.bury);
    }

    /** The store's counter, and the count it returns. */
    method IncrementAttempts(ghost w: nat, m: Message, ghost rest: seq<Message>, counts: bool) returns (n: Option<nat>)
      requires Valid() && st.WorkerAt(w) == Busy(Failing(m), rest)
      modifies this`attempts, this`st
      ensures Valid() && (n.Some? <==> counts)
      ensures n.None? ==> Now() == old(Now()) && st.WorkerAt(w) == Resting(rest)
      ensures n.Some? ==> Now() == old(Now()).Bumped(m.id) && n.value == old(Now()).Attempts(m.id) + 1
      ensures n.Some? ==> st.WorkerAt(w) == if n.value < max then Resting(rest) else Busy(Dropping(m), rest)
    {
      var k := (if m.id in attempts then attempts[m.id] else 0) + 1;
      st := AfterIncrement(max, st, w, m, rest, counts);
      if !counts {
        return None;
      }
      attempts := attempts[m.id := k];
      return Some(k);
    }

    /** The tombstone; when it fails the row stays for the next failure. */
    method PoisonDrop(ghost w: nat, m: Message, ghost rest: seq<Message>, buries: bool) returns (r: Verdict)
      requires Valid() && st.WorkerAt(w) == Busy(Dropping(m), rest)
      modifies this`pending, this`attempts, this`dropped, this`st
      ensures Valid() && st.WorkerAt(w) == Resting(rest)
      ensures r == if buries then Poison else StoreError
      ensures r == Poison ==> Now() == old(Now()).Cleared(m.id).(dropped := old(dropped) + 1)
      ensures r != Poison ==> Now() == old(Now())
    {
      if buries {
        pending, attempts := pending - {m.id}, attempts - {m.id};
        dropped := dropped + 1;
      }
      st := AfterTombstone(max, st, w, m, rest, buries);
      r := if buries then Poison else StoreError;
    }

    /** LoadBatch: as many rows of the backlog as the batch holds, in any order; an error
        yields none. */
    method LoadBatch(loads: bool) returns (batch: seq<Message>)
      requires Valid()
      ensures FromBacklog(pending, batch) && if loads then FullBatch(pending, batch) else batch == []
    {
      ReachableKeyed(max, st);
      batch := [];
      if !loads {
        return;
      }
      var left := pending.Keys;
      while left != {} && |batch| < BATCH
        invariant left <= pending.Keys && FromBacklog(pending, batch)
        invariant |batch| + |left| == |pending|
        invariant forall i | 0 <= i < |batch| :: batch[i].id !in left
        invariant forall i, j | 0 <= i < j < |batch| :: batch[i].id != batch[j].id
        decreases |left|
      {
        var id :| id in left;
        left := left - {id};
        batch := batch + [pending[id]];
      }
    }

    /** One turn of worker's loop: a channel delivery, else a backlog batch. `ps(i)` is
        what the `i`-th message's calls meet. */
    method Turn(ghost w: nat, loads: bool, ps: nat -> Ports) returns (ghost done: seq<Message>)
      requires Valid() && st.WorkerAt(w) == Resting([])
      modifies this`pending, this`attempts, this`index, this`chan, this`dropped, this`st
      ensures Valid() && st.WorkerAt(w) == Resting([])
      ensures chan == if old(chan) == [] then [] else old(chan)[1..]
      ensures if old(chan) == [] then FromBacklog(old(pending), done) else done == [old(chan)[0]]
      ensures old(chan) == [] ==> if loads then FullBatch(old(pending), done) else done == []
      ensures Worked(max, old(Now()), done, ps, Now())
    {
      if chan != [] {
        var m := chan[0];
        chan := chan[1..];
        st := AfterTake(max, st, w);
        var r := Process(w, m, [], ps(0));
        WorkedMore(max, old(Now()), [], ps, old(Now()), m, Now(), r);
        assert [] + [m] == [m];
        return [m];
      }
      done := DrainBacklog(w, loads, ps);
    }

    /** The next row of the batch. */
    method ProcessNext(ghost w: nat, m: Message, ghost rest: seq<Message>, p: Ports) returns (r: Verdict)
      requires Valid() && st.WorkerAt(w) == Resting([m] + rest)
      modifies this`pending, this`attempts, this`index, this`dropped, this`st
      ensures Valid() && st.WorkerAt(w) == Resting(rest)
      ensures Processed(max, old(Now()), Now(), m, p, r)
    {
      st := AfterNext(max, st, w, [m] + rest);
      assert ([m] + rest)[1..] == rest;
      r := Process(w, m, rest, p);
    }

    /** A batch of the backlog, one row after the other. */
    method DrainBacklog(ghost w: nat, loads: bool, ps: nat -> Ports) returns (batch: seq<Message>)
      requires Valid() && st.WorkerAt(w) == Resting([])
      modifies this`pending, this`attempts, this`index, this`dropped, this`st
      ensures Valid() && st.WorkerAt(w) == Resting([])
      ensures FromBacklog(old(pending), batch) && if loads then FullBatch(old(pending), batch) else batch == []
      ensures Worked(max, old(Now()), batch, ps, Now())
    {
      batch := LoadBatch(loads);
      st := AfterLoad(max, st, w, batch);
      ghost var done: seq<Message>, start := [], Now();
      var rest, i := batch, 0;
      while rest != []
        invariant Valid() && st.WorkerAt(w) == Resting(rest)
        invariant batch == done + rest && i == |done| && Worked(max, start, done, ps, Now())
        decreases |rest|
      {
        var m, more := rest[0], rest[1..];
        assert rest == [m] + more;
        ghost var before := Now();
        var r := ProcessNext(w, m, more, ps(i));
        WorkedMore(max, start, done, ps, before, m, Now(), r);
        Associative(done, [m], more);
        done, rest, i := done + [m], more, i + 1;
      }
      assert done + [] == done;
    }
  }
}
