/** Which messages can be enqueued so that every run of the pipeline, with any number of
    workers and crashes, keeps its promises (internal/app/embed_pipeline.go). */
module EmbedInputs {
  import opened EmbedPipeline
  import opened EmbedRows

  /* ----- every message in the pipeline was enqueued ----- */

  ghost predicate IsStored(h: seq<Entry>, m: Message) { Stored(m.id, m) in h }

  ghost predicate WorkerKnown(h: seq<Entry>, k: Worker) {
    (k.Busy? ==> IsStored(h, k.job.m)) && forall m <- k.rest :: IsStored(h, m)
  }

  /** Rows, index, channel and workers hold enqueued messages only, each under its id. */
  ghost predicate Known(s: State) {
    && (forall id <- s.pending :: s.pending[id].id == id && IsStored(s.history, s.pending[id]))
    && (forall id <- s.index :: s.index[id].id == id && IsStored(s.history, s.index[id]))
    && (forall m <- s.chan :: IsStored(s.history, m))
    && (forall w: nat :: WorkerKnown(s.history, s.WorkerAt(w)))
  }

  /** An id that was never enqueued has no counted failure. */
  ghost predicate Uncounted(s: State) {
    forall id: Id | id !in Accepted(s.history) :: s.Attempts(id) == 0
  }

  lemma StoredGrows(h: seq<Entry>, h': seq<Entry>, k: Worker)
    requires h <= h' && WorkerKnown(h, k)
    ensures WorkerKnown(h', k)
  {
    assert forall e <- h :: e in h';
  }

  /** The action is one of worker `w`. */
  predicate Moves(a: Action, w: nat) { !a.Persist? && !a.Nudge? && !a.Crash? && a.w == w }

  lemma MovedWorkerKnown(max: nat, s: State, a: Action, w: nat)
    requires Known(s) && Moves(a, w)
    ensures WorkerKnown(s.history, Do(max, s, a).WorkerAt(w))
  {
    var k := s.WorkerAt(w);
    assert WorkerKnown(s.history, k);
    if a.Load? && Do(max, s, a) != s {
      forall m <- a.batch
        ensures IsStored(s.history, m)
      {
        assert s.pending[m.id] == m;
      }
    }
  }

  lemma WorkersStay(max: nat, s: State, a: Action, w: nat)
    requires !Moves(a, w) && !a.Crash?
    ensures Do(max, s, a).WorkerAt(w) == s.WorkerAt(w)
  {}

  lemma StepKnownWorkers(max: nat, s: State, a: Action, w: nat)
    requires Known(s)
    ensures WorkerKnown(Do(max, s, a).history, Do(max, s, a).WorkerAt(w))
  {
    var s' := Do(max, s, a);
    HistoryStep(max, s, a);
    assert WorkerKnown(s.history, s.WorkerAt(w));
    if a.Crash? {
      CrashIs(max, s);
    } else {
      if Moves(a, w) {
        MovedWorkerKnown(max, s, a, w);
      } else {
        WorkersStay(max, s, a, w);
      }
      StoredGrows(s.history, s'.history, s'.WorkerAt(w));
    }
  }

  /** Where the rows, the embeddings and the queued messages of a step come from. */
  lemma StepOrigins(max: nat, s: State, a: Action)
    ensures var s' := Do(max, s, a);
      && (forall id <- s'.pending :: (id in s.pending && s'.pending[id] == s.pending[id])
            || (Enqueues(a) && a.m == s'.pending[id] && a.m.id == id))
      && (forall m <- s'.chan :: m in s.chan || (a.Nudge? && a.m == m && Stored(m.id, m) in s.history))
  {}

  lemma IndexOrigins(max: nat, s: State, a: Action)
    ensures var s' := Do(max, s, a);
      forall id <- s'.index :: (id in s.index && s'.index[id] == s.index[id])
        || (a.Upsert? && s.WorkerAt(a.w).Busy? && s.WorkerAt(a.w).job.m == s'.index[id] && s'.index[id].id == id)
  {}

  lemma StepKnownStore(max: nat, s: State, a: Action)
    requires Known(s)
    ensures var s' := Do(max, s, a);
      && (forall id <- s'.pending :: s'.pending[id].id == id && IsStored(s'.history, s'.pending[id]))
      && (forall id <- s'.index :: s'.index[id].id == id && IsStored(s'.history, s'.index[id]))
      && (forall m <- s'.chan :: IsStored(s'.history, m))
  {
    HistoryStep(max, s, a);
    assert forall e <- s.history :: e in Do(max, s, a).history;
    StepOrigins(max, s, a);
    IndexOrigins(max, s, a);
    if a.Upsert? {
      assert WorkerKnown(s.history, s.WorkerAt(a.w));
    }
    assert Enqueues(a) ==> Wrote(max, s, a) == [Stored(a.m.id, a.m)];
  }

  lemma StepKnown(max: nat, s: State, a: Action)
    requires Known(s)
    ensures Known(Do(max, s, a))
  {
    StepKnownStore(max, s, a);
    forall w: nat
      ensures WorkerKnown(Do(max, s, a).history, Do(max, s, a).WorkerAt(w))
    {
      StepKnownWorkers(max, s, a, w);
    }
  }

  lemma StepUncounted(max: nat, s: State, a: Action)
    requires Known(s) && Uncounted(s)
    ensures Uncounted(Do(max, s, a))
  {
    var s' := Do(max, s, a);
    HistoryStep(max, s, a);
    if Wrote(max, s, a) != [] {
      AcceptedGrows(s.history, Wrote(max, s, a)[0]);
    }
    assert Accepted(s.history) <= Accepted(s'.history);
    if a.Increment? {
      var k := s.WorkerAt(a.w);
      assert WorkerKnown(s.history, k);
      assert k.Busy? ==> k.job.m.id in Accepted(s.history);
    }
    forall id: Id | id !in Accepted(s'.history)
      ensures s'.Attempts(id) == 0
    {
      assert s.Attempts(id) == 0;
    }
  }

  lemma {:induction false} RunKnown(max: nat, actions: seq<Action>)
    ensures Known(Run(max, BOOT, actions)) && Uncounted(Run(max, BOOT, actions))
  {
    if actions != [] {
      var front := actions[..|actions| - 1];
      RunKnown(max, front);
      StepKnown(max, Run(max, BOOT, front), actions[|actions| - 1]);
      StepUncounted(max, Run(max, BOOT, front), actions[|actions| - 1]);
    }
  }

  /* ----- which messages can be enqueued without losing one ----- */

  /** Every Enqueue of the run that is accepted is for one of the messages `ms`. */
  predicate EnqueuesFrom(actions: seq<Action>, ms: set<Message>) {
    forall a <- actions :: Enqueues(a) ==> a.m in ms
  }

  /** The durable writes in the history are all of messages of `ms`. */
  ghost predicate StoredFrom(h: seq<Entry>, ms: set<Message>) {
    forall e <- h :: e.Stored? ==> e.m in ms && e.m.id == e.id && Enqueues(Persist(e.m))
  }

  /** No two different messages of `ms` that Enqueue accepts share an id. */
  predicate OnePerId(ms: set<Message>) {
    forall m <- ms, n <- ms :: m.id == n.id && m.id != "" && m.body != "" && n.body != "" ==> m == n
  }

  lemma {:induction false} RunStoresFrom(max: nat, actions: seq<Action>, ms: set<Message>)
    requires EnqueuesFrom(actions, ms)
    ensures StoredFrom(Run(max, BOOT, actions).history, ms)
  {
    if actions != [] {
      var front, last := actions[..|actions| - 1], actions[|actions| - 1];
      RunStoresFrom(max, front, ms);
      HistoryStep(max, Run(max, BOOT, front), last);
      assert last in actions;
      assert !Enqueues(last) ==> forall e <- Wrote(max, Run(max, BOOT, front), last) :: !e.Stored?;
    }
  }

  lemma SameMessage(h: seq<Entry>, ms: set<Message>, m: Message, n: Message)
    requires StoredFrom(h, ms) && OnePerId(ms) && IsStored(h, m) && IsStored(h, n) && m.id == n.id
    ensures m == n
  {}

  lemma NoStepLoses(s: State, ms: set<Message>, a: Action)
    requires Known(s) && Safe(s) && StoredFrom(s.history, ms) && OnePerId(ms)
    ensures !Loses(s, a)
  {
    if Loses(s, a) {
      var k := s.WorkerAt(a.w);
      assert WorkerKnown(s.history, k) && JobSafe(s, k);
      var id := k.job.m.id;
      SameMessage(s.history, ms, k.job.m, s.index[id]);
      if a.MarkIndexed? {
        SameMessage(s.history, ms, s.pending[id], s.index[id]);
      }
      assert false;
    }
  }

  lemma NoRunLoses(max: nat, actions: seq<Action>, ms: set<Message>)
    requires EnqueuesFrom(actions, ms) && OnePerId(ms)
    ensures LosesNothing(max, actions)
  {
    forall k: nat | k < |actions|
      ensures !LosesAt(max, actions, k)
    {
      RunKnown(max, actions[..k]);
      NothingLost(max, actions[..k]);
      RunStoresFrom(max, actions[..k], ms);
      NoStepLoses(Run(max, BOOT, actions[..k]), ms, actions[k]);
    }
  }

  lemma RivalsLost(max: nat, m: Message, n: Message)
    requires Rivals(m, n)
    ensures !HeldThroughout(max, Replacement(m, n))
  {
    ReplacedRowLost(max, m, n);
    var actions := Replacement(m, n);
    var s := Run(max, BOOT, actions);
    assert actions[..|actions|] == actions;
    assert !Held(s, n.id);
  }

  /** Over which messages the pipeline is lossless, for any number of workers and crashes:
      every run that enqueues messages of `ms` only holds, at every point, the message
      accepted last under each id, if and only if no two different messages of `ms` share
      an id. */
  lemma HeldForInputsExactly(max: nat, ms: set<Message>)
    ensures (forall actions: seq<Action> | EnqueuesFrom(actions, ms) :: HeldThroughout(max, actions))
       <==> OnePerId(ms)
  {
    if OnePerId(ms) {
      forall actions: seq<Action> | EnqueuesFrom(actions, ms)
        ensures HeldThroughout(max, actions)
      {
        NoRunLoses(max, actions, ms);
        HeldExactly(max, actions);
      }
    } else {
      var m, n :| m in ms && n in ms && m != n && m.id == n.id && m.id != "" && m.body != "" && n.body != "";
      RivalsLost(max, m, n);
      assert EnqueuesFrom(Replacement(m, n), ms);
    }
  }

  /* ----- which messages can be enqueued within their retry budgets ----- */

  /** The messages Enqueue is called with, in order. */
  function Asked(actions: seq<Action>): seq<Message> {
    if actions == [] then []
    else
      var last := actions[|actions| - 1];
      Asked(actions[..|actions| - 1]) + if last.Persist? then [last.m] else []
  }

  /** No id occurs twice among the messages of the list that Enqueue accepts. */
  predicate OncePerId(ms: seq<Message>) {
    forall i, j | 0 <= i < j < |ms| && Enqueues(Persist(ms[i])) && Enqueues(Persist(ms[j])) :: ms[i].id != ms[j].id
  }

  lemma {:induction false} AskedPrefix(actions: seq<Action>, k: nat)
    requires k <= |actions|
    ensures Asked(actions[..k]) <= Asked(actions)
  {
    if k < |actions| {
      var front := actions[..|actions| - 1];
      AskedPrefix(front, k);
      assert front[..k] == actions[..k];
    } else {
      assert actions[..k] == actions;
    }
  }

  lemma {:induction false} AskedOf(actions: seq<Action>)
    ensures EnqueuesFrom(actions, set m <- Asked(actions))
  {
    if actions != [] {
      var front, last := actions[..|actions| - 1], actions[|actions| - 1];
      AskedOf(front);
      forall a <- actions | Enqueues(a)
        ensures a.m in Asked(actions)
      {
        assert a in front || a == last;
      }
    }
  }

  lemma {:induction false} AskedConcat(xs: seq<Action>, ys: seq<Action>)
    ensures Asked(xs + ys) == Asked(xs) + Asked(ys)
  {
    if ys == [] {
      assert xs + ys == xs;
    } else {
      var n := |ys| - 1;
      AskedConcat(xs, ys[..n]);
      assert (xs + ys)[..|xs + ys| - 1] == xs + ys[..n];
    }
  }

  lemma {:induction false} IdleAsksNothing(actions: seq<Action>)
    requires Idle(actions)
    ensures Asked(actions) == []
  {
    if actions != [] {
      IdleAsksNothing(actions[..|actions| - 1]);
    }
  }

  /** The `k`-th action enqueues an id for the first time. */
  lemma FirstOfItsId(max: nat, actions: seq<Action>, ms: seq<Message>, k: nat)
    requires Asked(actions) <= ms && OncePerId(ms) && k < |actions| && Enqueues(actions[k])
    ensures actions[k].m.id !in Accepted(Run(max, BOOT, actions[..k]).history)
  {
    var before, m := Asked(actions[..k]), actions[k].m;
    var h := Run(max, BOOT, actions[..k]).history;
    AskedPrefix(actions, k + 1);
    assert actions[..k + 1][..k] == actions[..k];
    assert before + [m] <= ms;
    assert ms[|before|] == m;
    AskedOf(actions[..k]);
    RunStoresFrom(max, actions[..k], set m <- before);
    forall e <- h | e.Stored?
      ensures e.id != m.id
    {
      var i: nat :| i < |before| && before[i] == e.m;
      assert ms[i] == e.m;
    }
  }

  lemma FirstMayEnqueue(max: nat, s: State, id: Id)
    requires Known(s) && Uncounted(s) && id !in Accepted(s.history)
    ensures MayEnqueue(max, s, id)
  {
    assert s.Attempts(id) == 0;
    forall w: nat | Buries(s.WorkerAt(w))
      ensures s.WorkerAt(w).job.m.id != id
    {
      assert WorkerKnown(s.history, s.WorkerAt(w));
    }
  }

  lemma OnceIsDisciplined(max: nat, actions: seq<Action>, ms: seq<Message>)
    requires Asked(actions) <= ms && OncePerId(ms)
    ensures Disciplined(max, BOOT, actions)
  {
    forall k | 0 <= k < |actions| && Enqueues(actions[k])
      ensures MayEnqueue(max, Run(max, BOOT, actions[..k]), actions[k].m.id)
    {
      FirstOfItsId(max, actions, ms, k);
      RunKnown(max, actions[..k]);
      FirstMayEnqueue(max, Run(max, BOOT, actions[..k]), actions[k].m.id);
    }
  }

  /** The messages of the list are persisted one after the other, and no worker runs. */
  lemma {:induction false} PersistAll(max: nat, ms: seq<Message>) returns (actions: seq<Action>)
    ensures Asked(actions) == ms
    ensures var s := Run(max, BOOT, actions);
      && s.workers == map[] && s.attempts == map[] && (forall e <- s.history :: !e.Drop?)
      && forall m <- ms :: Enqueues(Persist(m)) ==> m.id in s.pending
  {
    if ms == [] {
      actions := [];
    } else {
      var front, last := ms[..|ms| - 1], ms[|ms| - 1];
      var before := PersistAll(max, front);
      actions := before + [Persist(last)];
      assert actions[..|actions| - 1] == before;
      assert front + [last] == ms;
    }
  }

  /** Worker 0 fails a pending row until it decides to drop it. */
  lemma {:induction false} FailUp(max: nat, s: State, m: Message) returns (more: seq<Action>)
    requires Ready(s, m) && s.Attempts(m.id) < max && RowsInBudget(max, s.history)
    ensures Idle(more)
    ensures var t := Run(max, s, more); t.WorkerAt(0) == Busy(Dropping(m), []) && RowsInBudget(max, t.history)
    decreases max - s.Attempts(m.id)
  {
    var t := Run(max, s, Round(m));
    RoundIs(max, s, m);
    RowsAppended(max, s.history, Failure(m.id));
    if s.Attempts(m.id) + 1 < max {
      var rest := FailUp(max, t, m);
      more := Round(m) + rest;
      RunConcat(max, s, Round(m), rest);
    } else {
      more := Round(m);
    }
  }

  /** A list whose last message has the id of an earlier one. */
  lemma SecondRowDropped(max: nat, ms: seq<Message>, i: nat, m: Message) returns (actions: seq<Action>)
    requires max >= 1 && i < |ms| && Enqueues(Persist(ms[i])) && Enqueues(Persist(m)) && ms[i].id == m.id
    ensures Asked(actions) == ms + [m]
    ensures !RowsInBudget(max, Run(max, BOOT, actions).history)
  {
    var before := PersistAll(max, ms);
    var s := Run(max, BOOT, before);
    RunKnown(max, before);
    var p := s.pending[m.id];
    var more := FailUp(max, s, p);
    RunConcat(max, BOOT, before, more);
    var t := Run(max, BOOT, before + more);
    TombstoneTakes(max, t, m, 0);
    var last := [Persist(m), Tombstone(0, true)];
    assert last[..1] == [Persist(m)];
    RunSingle(max, t, Persist(m));
    actions := before + more + last;
    RunConcat(max, BOOT, before + more, last);
    IdleAsksNothing(more);
    AskedConcat(before, more);
    AskedConcat(before + more, last);
    assert Asked(last[..1]) == [m];
  }

  /** Over which messages every row gets its whole retry budget, for any number of workers
      and crashes: every run that calls Enqueue with the messages of the list, as far as it
      gets, drops only rows that failed `max` times themselves, if and only if no id occurs
      twice in the list. */
  lemma BudgetForInputsExactly(max: nat, ms: seq<Message>)
    requires max >= 1
    ensures (forall actions: seq<Action> | Asked(actions) <= ms :: RowsInBudget(max, Run(max, BOOT, actions).history))
       <==> OncePerId(ms)
  {
    if OncePerId(ms) {
      forall actions: seq<Action> | Asked(actions) <= ms
        ensures RowsInBudget(max, Run(max, BOOT, actions).history)
      {
        OnceIsDisciplined(max, actions, ms);
        RowBudgetKept(max, actions);
      }
    } else {
      var i, j :| 0 <= i < j < |ms| && Enqueues(Persist(ms[i])) && Enqueues(Persist(ms[j])) && ms[i].id == ms[j].id;
      var actions := SecondRowDropped(max, ms[..j], i, ms[j]);
      assert Asked(actions) == ms[..j + 1] <= ms;
    }
  }
}
