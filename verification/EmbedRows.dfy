/** What the embedding pipeline keeps of each single row, when ids are enqueued again:
    the retry budget of a row and the fate of the message accepted last, each with the
    exact condition under which it holds (internal/app/embed_pipeline.go). */
module EmbedRows {
  import opened Text
  import opened EmbedPipeline

  /* ----- the retry budget of a row ----- */

  function NextRow(n: nat, id: Id, e: Entry): nat {
    if e.id != id then n else if e.Stored? then 0 else if e.Failure? then n + 1 else n
  }

  /** Failures of `id` recorded since its row was last enqueued. */
  ghost function RowFailures(h: seq<Entry>, id: Id): nat {
    if h == [] then 0 else NextRow(RowFailures(h[..|h| - 1], id), id, h[|h| - 1])
  }

  lemma RowAppended(h: seq<Entry>, e: Entry, id: Id)
    ensures RowFailures(h + [e], id) == NextRow(RowFailures(h, id), id, e)
  {
    assert (h + [e])[..|h|] == h;
  }

  /** Every row that is dropped has failed at least `max` times itself. */
  ghost predicate RowsInBudget(max: nat, h: seq<Entry>) {
    forall k | 0 <= k < |h| && h[k].Drop? && h[k].row.Some? :: RowFailures(h[..k], h[k].id) >= max
  }

  lemma RowsAppended(max: nat, h: seq<Entry>, e: Entry)
    requires RowsInBudget(max, h)
    ensures RowsInBudget(max, h + [e]) <==> (e.Drop? && e.row.Some? ==> RowFailures(h, e.id) >= max)
  {
    var r := h + [e];
    forall k | 0 <= k < |h|
      ensures r[..k] == h[..k] && r[k] == h[k]
    {}
    assert r[..|h|] == h && r[|h|] == e;
  }

  /** A row was never tried exactly when every counted failure of its id came before it
      was enqueued. */
  lemma {:induction false} NeverTriedExactly(h: seq<Entry>, id: Id)
    ensures RowFailures(h, id) == 0
       <==> forall i: nat | i < |h| && h[i] == Failure(id) :: StoredAfter(h, id, i)
  {
    if h != [] {
      var front, last := h[..|h| - 1], h[|h| - 1];
      NeverTriedExactly(front, id);
      forall i: nat | i < |front|
        ensures StoredAfter(h, id, i) <==> StoredAfter(front, id, i) || (last.Stored? && last.id == id)
      {
        if j :| i < j < |front| && front[j].Stored? && front[j].id == id {
          assert h[j] == front[j];
        }
      }
      if last == Failure(id) {
        assert !StoredAfter(h, id, |h| - 1);
      }
    }
  }

  ghost predicate StoredAfter(h: seq<Entry>, id: Id, i: nat) {
    exists j | i < j < |h| :: h[j].Stored? && h[j].id == id
  }

  /** The failures of `id` in the history that no later Enqueue of it has left behind. */
  ghost function OwnFailures(h: seq<Entry>, id: Id): set<nat> {
    set i: nat | i < |h| && h[i] == Failure(id) && !StoredAfter(h, id, i)
  }

  lemma OwnFailuresAppended(h: seq<Entry>, e: Entry, id: Id)
    ensures e.id == id && e.Stored? ==> OwnFailures(h + [e], id) == {}
    ensures e == Failure(id) ==> OwnFailures(h + [e], id) == OwnFailures(h, id) + {|h|}
    ensures e.id != id || e.Indexed? || e.Drop? ==> OwnFailures(h + [e], id) == OwnFailures(h, id)
  {
    var r := h + [e];
    forall i: nat | i < |h|
      ensures StoredAfter(r, id, i) <==> StoredAfter(h, id, i) || (e.Stored? && e.id == id)
    {
      if StoredAfter(h, id, i) {
        var j :| i < j < |h| && h[j].Stored? && h[j].id == id;
        assert r[j] == h[j];
      }
      assert r[|h|] == e;
    }
    assert !StoredAfter(r, id, |h|);
  }

  /** A row's own failures, counted. */
  lemma {:induction false} RowFailuresMeans(h: seq<Entry>, id: Id)
    ensures RowFailures(h, id) == |OwnFailures(h, id)|
  {
    if h != [] {
      var front, last := h[..|h| - 1], h[|h| - 1];
      assert h == front + [last];
      RowFailuresMeans(front, id);
      OwnFailuresAppended(front, last, id);
    }
  }

  /** A worker is about to write a tombstone for `id`. */
  ghost predicate BeingDropped(s: State, id: Id) {
    exists w: nat :: Buries(s.WorkerAt(w)) && s.WorkerAt(w).job.m.id == id
  }

  /** The moment for an Enqueue of `id`: no counted failure of the id that has not been
      cleared, and no tombstone on its way. */
  ghost predicate MayEnqueue(max: nat, s: State, id: Id) {
    !BeingDropped(s, id) && (s.Attempts(id) == 0 || max <= 1)
  }

  predicate Enqueues(a: Action) { a.Persist? && a.m.id != "" && a.m.body != "" }

  /** Every Enqueue of the run happens when it may. */
  ghost predicate Disciplined(max: nat, s: State, actions: seq<Action>) {
    forall k | 0 <= k < |actions| && Enqueues(actions[k]) :: MayEnqueue(max, Run(max, s, actions[..k]), actions[k].m.id)
  }

  ghost predicate Budgeted(max: nat, s: State) {
    && RowsInBudget(max, s.history)
    && (max >= 2 ==> forall id: Id :: s.Attempts(id) <= RowFailures(s.history, id))
    && (forall w: nat | Buries(s.WorkerAt(w)) :: RowFailures(s.history, s.WorkerAt(w).job.m.id) >= max)
  }

  /** A step that writes `e` into the history. */
  lemma EntryBudgeted(max: nat, s: State, s': State, e: Entry)
    requires Budgeted(max, s) && s'.history == s.history + [e]
    requires forall v: nat | Buries(s'.WorkerAt(v)) ::
      || (s'.WorkerAt(v) == s.WorkerAt(v) && !(e.Stored? && e.id == s'.WorkerAt(v).job.m.id))
      || (e == Failure(s'.WorkerAt(v).job.m.id) && RowFailures(s.history, e.id) + 1 >= max)
    requires max >= 2 ==> forall id: Id :: s'.Attempts(id) == NextCount(s.Attempts(id), id, e)
    requires max >= 2 && e.Stored? ==> s.Attempts(e.id) == 0
    requires e.Drop? && e.row.Some? ==> RowFailures(s.history, e.id) >= max
    ensures Budgeted(max, s')
  {
    RowsAppended(max, s.history, e);
    forall id: Id
      ensures RowFailures(s'.history, id) == NextRow(RowFailures(s.history, id), id, e)
    {
      RowAppended(s.history, e, id);
    }
    if max >= 2 {
      forall id: Id
        ensures s'.Attempts(id) <= RowFailures(s'.history, id)
      {
        assert s.Attempts(id) <= RowFailures(s.history, id);
      }
    }
    forall w: nat | Buries(s'.WorkerAt(w))
      ensures RowFailures(s'.history, s'.WorkerAt(w).job.m.id) >= max
    {
      if s'.WorkerAt(w) == s.WorkerAt(w) {
        assert RowFailures(s.history, s.WorkerAt(w).job.m.id) >= max;
      }
    }
  }

  lemma QuietBudgeted(max: nat, s: State, s': State)
    requires Budgeted(max, s) && s'.history == s.history && s'.attempts == s.attempts
    requires forall v: nat | Buries(s'.WorkerAt(v)) :: s'.WorkerAt(v) == s.WorkerAt(v)
    ensures Budgeted(max, s')
  {
    if max >= 2 {
      forall id: Id
        ensures s'.Attempts(id) <= RowFailures(s'.history, id)
      {
        assert s.Attempts(id) <= RowFailures(s.history, id);
      }
    }
  }

  lemma PersistBudgeted(max: nat, s: State, m: Message)
    requires Budgeted(max, s) && (Enqueues(Persist(m)) ==> MayEnqueue(max, s, m.id))
    ensures Budgeted(max, Do(max, s, Persist(m)))
  {
    if Enqueues(Persist(m)) {
      EntryBudgeted(max, s, Do(max, s, Persist(m)), Stored(m.id, m));
    }
  }

  lemma MarkBudgeted(max: nat, s: State, w: nat, ok: bool)
    requires Budgeted(max, s)
    ensures Budgeted(max, Do(max, s, MarkIndexed(w, ok)))
  {
    var k := s.WorkerAt(w);
    if k.Busy? && k.job.Upserted? && ok {
      EntryBudgeted(max, s, Do(max, s, MarkIndexed(w, ok)), Indexed(k.job.m.id));
    } else {
      QuietBudgeted(max, s, Do(max, s, MarkIndexed(w, ok)));
    }
  }

  lemma IncrementBudgeted(max: nat, s: State, w: nat, ok: bool)
    requires Budgeted(max, s)
    ensures Budgeted(max, Do(max, s, Increment(w, ok)))
  {
    var k := s.WorkerAt(w);
    if k.Busy? && k.job.Failing? && ok {
      assert max >= 2 ==> s.Attempts(k.job.m.id) <= RowFailures(s.history, k.job.m.id);
      EntryBudgeted(max, s, Do(max, s, Increment(w, ok)), Failure(k.job.m.id));
    } else {
      QuietBudgeted(max, s, Do(max, s, Increment(w, ok)));
    }
  }

  lemma TombstoneBudgeted(max: nat, s: State, w: nat, ok: bool)
    requires Budgeted(max, s)
    ensures Budgeted(max, Do(max, s, Tombstone(w, ok)))
  {
    var k := s.WorkerAt(w);
    if Buries(k) && ok {
      EntryBudgeted(max, s, Do(max, s, Tombstone(w, ok)), Drop(k.job.m.id, s.Row(k.job.m.id)));
    } else {
      QuietBudgeted(max, s, Do(max, s, Tombstone(w, ok)));
    }
  }

  lemma StepBudgeted(max: nat, s: State, a: Action)
    requires Budgeted(max, s) && (Enqueues(a) ==> MayEnqueue(max, s, a.m.id))
    ensures Budgeted(max, Do(max, s, a))
  {
    match a
    case Persist(m) => PersistBudgeted(max, s, m);
    case MarkIndexed(w, ok) => MarkBudgeted(max, s, w, ok);
    case Increment(w, ok) => IncrementBudgeted(max, s, w, ok);
    case Tombstone(w, ok) => TombstoneBudgeted(max, s, w, ok);
    case _ => QuietBudgeted(max, s, Do(max, s, a));
  }

  lemma {:induction false} RunBudgeted(max: nat, s: State, actions: seq<Action>)
    requires Budgeted(max, s) && Disciplined(max, s, actions)
    ensures Budgeted(max, Run(max, s, actions))
  {
    if actions != [] {
      var front := actions[..|actions| - 1];
      forall k | 0 <= k < |front|
        ensures front[..k] == actions[..k]
      {}
      RunBudgeted(max, s, front);
      StepBudgeted(max, Run(max, s, front), actions[|actions| - 1]);
    }
  }

  /** Any number of workers and crashes: as long as ids are enqueued again only when they
      may be, every dropped row has itself failed at least `max` times. */
  lemma RowBudgetKept(max: nat, actions: seq<Action>)
    requires Disciplined(max, BOOT, actions)
    ensures RowsInBudget(max, Run(max, BOOT, actions).history)
  {
    RunBudgeted(max, BOOT, actions);
  }

  lemma {:induction false} RunConcat(max: nat, s: State, xs: seq<Action>, ys: seq<Action>)
    ensures Run(max, s, xs + ys) == Run(max, Run(max, s, xs), ys)
  {
    if ys == [] {
      assert xs + ys == xs;
    } else {
      var n := |ys| - 1;
      RunConcat(max, s, xs, ys[..n]);
      assert (xs + ys)[..|xs + ys| - 1] == xs + ys[..n];
    }
  }

  lemma RunSingle(max: nat, s: State, a: Action)
    ensures Run(max, s, [a]) == Do(max, s, a)
  {
    assert [a][..0] == [];
    assert Run(max, s, []) == s;
  }

  /** Row `m` is pending and worker 0 is free. */
  ghost predicate Ready(s: State, m: Message) {
    m.id in s.pending && s.pending[m.id] == m && s.WorkerAt(0) == Resting([])
  }

  /** More failures are counted for the row than are its own, and those are not enough. */
  ghost predicate Behind(max: nat, s: State, m: Message) {
    && Ready(s, m)
    && RowFailures(s.history, m.id) < s.Attempts(m.id) && RowFailures(s.history, m.id) + 1 < max
  }

  /** Load, start, fail to embed, count. */
  function Round(m: Message): seq<Action> { [Load(0, [m]), NextInBatch(0), Embed(0, false), Increment(0, true)] }

  lemma LoadAndStart(max: nat, s: State, m: Message)
    requires Ready(s, m)
    ensures var t := Do(max, Do(max, s, Load(0, [m])), NextInBatch(0));
      t == s.With(0, Resting([m])).With(0, Busy(Start(m), []))
  {
    assert [m][1..] == [];
  }

  lemma RoundIs(max: nat, s: State, m: Message)
    requires Ready(s, m)
    ensures var t := Run(max, s, Round(m));
      && t.pending == s.pending && t.history == s.history + [Failure(m.id)]
      && t.Attempts(m.id) == s.Attempts(m.id) + 1
      && t.WorkerAt(0) == if s.Attempts(m.id) + 1 < max then Resting([]) else Busy(Dropping(m), [])
  {
    var r := Round(m);
    assert r[..3] == [Load(0, [m]), NextInBatch(0), Embed(0, false)];
    assert r[..3][..2] == [Load(0, [m]), NextInBatch(0)];
    assert r[..3][..2][..1] == [Load(0, [m])];
    RunSingle(max, s, Load(0, [m]));
    LoadAndStart(max, s, m);
    var t := Run(max, s, r[..3][..2]);
    assert t == Do(max, Do(max, s, Load(0, [m])), NextInBatch(0));
    var u := Run(max, s, r[..3]);
    assert u == Do(max, t, Embed(0, false));
    IncrementIs(max, u, 0, m, []);
  }

  /** No action enqueues anything. */
  predicate Idle(actions: seq<Action>) { forall a <- actions :: !a.Persist? }

  /** From such a state the row is dropped before its own budget is used up. */
  lemma {:induction false} Exhaust(max: nat, s: State, m: Message) returns (more: seq<Action>)
    requires Behind(max, s, m) && RowsInBudget(max, s.history)
    ensures Idle(more) && !RowsInBudget(max, Run(max, s, more).history)
    decreases max - s.Attempts(m.id)
  {
    var t := Run(max, s, Round(m));
    RoundIs(max, s, m);
    RowAppended(s.history, Failure(m.id), m.id);
    RowsAppended(max, s.history, Failure(m.id));
    var rest;
    if s.Attempts(m.id) + 1 < max {
      rest := Exhaust(max, t, m);
    } else {
      rest := [Tombstone(0, true)];
      RunSingle(max, t, Tombstone(0, true));
      RowsAppended(max, t.history, Drop(m.id, Some(m)));
    }
    more := Round(m) + rest;
    RunConcat(max, s, Round(m), rest);
  }

  lemma CrashIs(max: nat, s: State)
    ensures Do(max, s, Crash) == s.(chan := [], workers := map[])
  {}

  /** A tombstone is on its way: it takes the new row. */
  lemma TombstoneTakes(max: nat, s: State, m: Message, w: nat)
    requires max >= 1 && RowsInBudget(max, s.history) && Enqueues(Persist(m))
    requires Buries(s.WorkerAt(w)) && s.WorkerAt(w).job.m.id == m.id
    ensures !RowsInBudget(max, Do(max, Do(max, s, Persist(m)), Tombstone(w, true)).history)
  {
    var t := Do(max, s, Persist(m));
    RowAppended(s.history, Stored(m.id, m), m.id);
    RowsAppended(max, s.history, Stored(m.id, m));
    RowsAppended(max, t.history, Drop(m.id, Some(m)));
  }

  /** The counter is not clear: after a restart the new row starts with it. */
  lemma CounterStays(max: nat, s: State, m: Message)
    requires max >= 2 && RowsInBudget(max, s.history) && Enqueues(Persist(m)) && s.Attempts(m.id) > 0
    ensures var t := Do(max, Do(max, s, Persist(m)), Crash); Behind(max, t, m) && RowsInBudget(max, t.history)
  {
    RowAppended(s.history, Stored(m.id, m), m.id);
    RowsAppended(max, s.history, Stored(m.id, m));
    CrashIs(max, Do(max, s, Persist(m)));
  }

  /** An Enqueue that should not have happened, and how the run may go on. */
  lemma Untimely(max: nat, s: State, m: Message) returns (more: seq<Action>)
    requires max >= 1 && Budgeted(max, s) && Enqueues(Persist(m)) && !MayEnqueue(max, s, m.id)
    ensures Idle(more) && !RowsInBudget(max, Run(max, Do(max, s, Persist(m)), more).history)
  {
    var t := Do(max, s, Persist(m));
    if BeingDropped(s, m.id) {
      var w: nat :| Buries(s.WorkerAt(w)) && s.WorkerAt(w).job.m.id == m.id;
      more := [Tombstone(w, true)];
      RunSingle(max, t, Tombstone(w, true));
      TombstoneTakes(max, s, m, w);
    } else {
      CounterStays(max, s, m);
      var rest := Exhaust(max, Do(max, t, Crash), m);
      more := [Crash] + rest;
      RunSingle(max, t, Crash);
      RunConcat(max, t, [Crash], rest);
    }
  }

  /** The condition is exact: whatever happens after an Enqueue, short of another untimely
      one, drops rows within their own budgets only, if and only if that Enqueue came when
      it might: a condition on the state at that moment. */
  lemma EnqueueExactly(max: nat, s: State, m: Message)
    requires max >= 1 && Budgeted(max, s) && Enqueues(Persist(m))
    ensures (forall more: seq<Action> | Disciplined(max, Do(max, s, Persist(m)), more) ::
               RowsInBudget(max, Run(max, Do(max, s, Persist(m)), more).history))
       <==> MayEnqueue(max, s, m.id)
  {
    var t := Do(max, s, Persist(m));
    if MayEnqueue(max, s, m.id) {
      PersistBudgeted(max, s, m);
      forall more: seq<Action> | Disciplined(max, t, more)
        ensures RowsInBudget(max, Run(max, t, more).history)
      {
        RunBudgeted(max, t, more);
      }
    } else {
      var more := Untimely(max, s, m);
      assert Disciplined(max, t, more);
    }
  }

  /* ----- the message accepted last ----- */

  /** What Enqueue persisted last under `id`. */
  ghost function Latest(h: seq<Entry>, id: Id): Option<Message> {
    if h == [] then None
    else if h[|h| - 1].id == id && h[|h| - 1].Stored? then Some(h[|h| - 1].m)
    else Latest(h[..|h| - 1], id)
  }

  /** The row enqueued last was dropped as poison. */
  ghost predicate RowDropped(h: seq<Entry>, id: Id) {
    h != [] && (
      var last := h[|h| - 1];
      if last.id == id && last.Stored? then false
      else (last.id == id && last.Drop? && last.row.Some?) || RowDropped(h[..|h| - 1], id))
  }

  lemma LatestAppended(h: seq<Entry>, e: Entry, id: Id)
    ensures Latest(h + [e], id) == if e.id == id && e.Stored? then Some(e.m) else Latest(h, id)
    ensures RowDropped(h + [e], id) <==>
      !(e.id == id && e.Stored?) && ((e.id == id && e.Drop? && e.row.Some?) || RowDropped(h, id))
  {
    assert (h + [e])[..|h|] == h;
  }

  /** No entry after position `i` enqueues `id`. */
  ghost predicate LastStored(h: seq<Entry>, id: Id, i: nat) {
    i < |h| && h[i].Stored? && h[i].id == id && !StoredAfter(h, id, i)
  }

  lemma {:induction false} LatestMeans(h: seq<Entry>, id: Id, i: nat)
    ensures LastStored(h, id, i) ==> Latest(h, id) == Some(h[i].m)
    ensures (forall e <- h :: !(e.Stored? && e.id == id)) ==> Latest(h, id) == None
    ensures LastStored(h, id, i) ==> (RowDropped(h, id) <==> exists k | i < k < |h| :: h[k].id == id && h[k].Drop? && h[k].row.Some?)
  {
    if h != [] && !(h[|h| - 1].Stored? && h[|h| - 1].id == id) {
      var front := h[..|h| - 1];
      LatestMeans(front, id, i);
      if LastStored(h, id, i) {
        FrontStored(h, id, i);
      }
    } else if LastStored(h, id, i) {
      assert i < |h| - 1 ==> StoredAfter(h, id, i);
    }
  }

  lemma FrontStored(h: seq<Entry>, id: Id, i: nat)
    requires LastStored(h, id, i) && i < |h| - 1
    ensures LastStored(h[..|h| - 1], id, i)
  {
    var front := h[..|h| - 1];
    forall j | i < j < |front|
      ensures !(front[j].Stored? && front[j].id == id)
    {
      assert h[j] == front[j];
    }
  }

  /** The message accepted last is pending, embedded in the index, or dropped. */
  ghost predicate Held(s: State, id: Id) {
    || id in s.pending
    || (id in s.index && Latest(s.history, id) == Some(s.index[id]))
    || RowDropped(s.history, id)
  }

  ghost predicate AllHeld(s: State) { forall id: Id | Latest(s.history, id).Some? :: Held(s, id) }

  /** A pending row is the message accepted last, and has not been dropped. */
  ghost predicate RowsLatest(s: State) {
    forall id <- s.pending :: Latest(s.history, id) == Some(s.pending[id]) && !RowDropped(s.history, id)
  }

  /** The two calls that lose a message: clearing a row that was replaced while an older
      message was being embedded, and embedding an older message over a newer one whose
      row is gone. */
  ghost predicate Loses(s: State, a: Action) {
    match a
    case MarkIndexed(w, ok) =>
      var k := s.WorkerAt(w);
      && ok && k.Busy? && k.job.Upserted? && k.job.m.id in s.pending
      && !(k.job.m.id in s.index && s.index[k.job.m.id] == s.pending[k.job.m.id])
    case Upsert(w, ok) =>
      var k := s.WorkerAt(w);
      && ok && k.Busy? && k.job.Embedded?
      && k.job.m.id !in s.pending && !RowDropped(s.history, k.job.m.id)
      && k.job.m.id in s.index && Latest(s.history, k.job.m.id) == Some(s.index[k.job.m.id]) && s.index[k.job.m.id] != k.job.m
    case _ => false
  }

  /** Nothing but the entry `e` and the parts named changes for the other ids. */
  lemma OtherHeld(s: State, s': State, e: Entry, id: Id)
    requires s'.history == s.history + [e] && e.id != id
    requires (id in s'.pending <==> id in s.pending) && (id in s'.index <==> id in s.index)
    requires id in s.index ==> s'.index[id] == s.index[id]
    ensures Latest(s'.history, id) == Latest(s.history, id)
    ensures Held(s', id) <==> Held(s, id)
  {
    LatestAppended(s.history, e, id);
  }

  lemma PersistHolds(max: nat, s: State, m: Message)
    requires RowsLatest(s) && AllHeld(s)
    ensures RowsLatest(Do(max, s, Persist(m))) && AllHeld(Do(max, s, Persist(m)))
  {
    if Enqueues(Persist(m)) {
      var s' := Do(max, s, Persist(m));
      forall id: Id
        ensures Latest(s'.history, id) == if id == m.id then Some(m) else Latest(s.history, id)
        ensures id != m.id ==> (Held(s', id) <==> Held(s, id))
      {
        LatestAppended(s.history, Stored(m.id, m), id);
      }
    }
  }

  lemma MarkHolds(max: nat, s: State, w: nat, ok: bool)
    requires RowsLatest(s) && AllHeld(s)
    ensures RowsLatest(Do(max, s, MarkIndexed(w, ok)))
    ensures AllHeld(Do(max, s, MarkIndexed(w, ok))) <==> !Loses(s, MarkIndexed(w, ok))
  {
    var k := s.WorkerAt(w);
    if k.Busy? && k.job.Upserted? && ok {
      var x, s' := k.job.m.id, Do(max, s, MarkIndexed(w, ok));
      LatestAppended(s.history, Indexed(x), x);
      forall id: Id | id != x
        ensures Latest(s'.history, id) == Latest(s.history, id) && (Held(s', id) <==> Held(s, id))
      {
        OtherHeld(s, s', Indexed(x), id);
      }
      assert Latest(s.history, x).Some? ==> Held(s, x);
      assert AllHeld(s') <==> (Latest(s.history, x).Some? ==> Held(s', x));
    } else {
      QuietHolds(s, Do(max, s, MarkIndexed(w, ok)));
    }
  }

  lemma UpsertHolds(max: nat, s: State, w: nat, ok: bool)
    requires RowsLatest(s) && AllHeld(s)
    ensures RowsLatest(Do(max, s, Upsert(w, ok)))
    ensures AllHeld(Do(max, s, Upsert(w, ok))) <==> !Loses(s, Upsert(w, ok))
  {
    var k := s.WorkerAt(w);
    if k.Busy? && k.job.Embedded? && ok {
      var x, s' := k.job.m.id, Do(max, s, Upsert(w, ok));
      forall id: Id | id != x
        ensures Held(s', id) <==> Held(s, id)
      {}
      assert Latest(s.history, x).Some? ==> Held(s, x);
      assert AllHeld(s') <==> (Latest(s.history, x).Some? ==> Held(s', x));
    } else {
      QuietHolds(s, Do(max, s, Upsert(w, ok)));
    }
  }

  lemma TombstoneHolds(max: nat, s: State, w: nat, ok: bool)
    requires RowsLatest(s) && AllHeld(s)
    ensures RowsLatest(Do(max, s, Tombstone(w, ok))) && AllHeld(Do(max, s, Tombstone(w, ok)))
  {
    var k := s.WorkerAt(w);
    if Buries(k) && ok {
      var x, s' := k.job.m.id, Do(max, s, Tombstone(w, ok));
      LatestAppended(s.history, Drop(x, s.Row(x)), x);
      forall id: Id | id != x
        ensures Latest(s'.history, id) == Latest(s.history, id) && (Held(s', id) <==> Held(s, id))
        ensures RowDropped(s'.history, id) <==> RowDropped(s.history, id)
      {
        OtherHeld(s, s', Drop(x, s.Row(x)), id);
      }
      assert Latest(s.history, x).Some? ==> Held(s, x);
    } else {
      QuietHolds(s, Do(max, s, Tombstone(w, ok)));
    }
  }

  lemma IncrementHolds(max: nat, s: State, w: nat, ok: bool)
    requires RowsLatest(s) && AllHeld(s)
    ensures RowsLatest(Do(max, s, Increment(w, ok))) && AllHeld(Do(max, s, Increment(w, ok)))
  {
    var k := s.WorkerAt(w);
    if k.Busy? && k.job.Failing? && ok {
      var s' := Do(max, s, Increment(w, ok));
      forall id: Id
        ensures Latest(s'.history, id) == Latest(s.history, id)
        ensures RowDropped(s'.history, id) <==> RowDropped(s.history, id)
      {
        LatestAppended(s.history, Failure(k.job.m.id), id);
      }
      forall id: Id | Latest(s'.history, id).Some?
        ensures Held(s', id)
      {
        assert Held(s, id);
      }
    } else {
      QuietHolds(s, Do(max, s, Increment(w, ok)));
    }
  }

  /** One step, exactly. */
  lemma StepHolds(max: nat, s: State, a: Action)
    requires RowsLatest(s) && AllHeld(s)
    ensures RowsLatest(Do(max, s, a))
    ensures AllHeld(Do(max, s, a)) <==> !Loses(s, a)
  {
    match a
    case Persist(m) => PersistHolds(max, s, m);
    case MarkIndexed(w, ok) => MarkHolds(max, s, w, ok);
    case Upsert(w, ok) => UpsertHolds(max, s, w, ok);
    case Tombstone(w, ok) => TombstoneHolds(max, s, w, ok);
    case Increment(w, ok) => IncrementHolds(max, s, w, ok);
    case _ => QuietHolds(s, Do(max, s, a));
  }

  lemma QuietHolds(s: State, s': State)
    requires RowsLatest(s) && AllHeld(s)
    requires s'.history == s.history && s'.pending == s.pending && s'.index == s.index
    ensures RowsLatest(s') && AllHeld(s')
  {
    forall id: Id | Latest(s'.history, id).Some?
      ensures Held(s', id)
    {
      assert Held(s, id);
    }
  }

  /** At every point of the run the message accepted last under each id is held. */
  ghost predicate HeldThroughout(max: nat, actions: seq<Action>) {
    forall k | 0 <= k <= |actions| :: AllHeld(Run(max, BOOT, actions[..k]))
  }

  /** The `k`-th action of the run loses a message. */
  ghost predicate LosesAt(max: nat, actions: seq<Action>, k: nat)
    requires k < |actions|
  {
    Loses(Run(max, BOOT, actions[..k]), actions[k])
  }

  ghost predicate LosesNothing(max: nat, actions: seq<Action>) {
    forall k: nat | k < |actions| :: !LosesAt(max, actions, k)
  }

  lemma PrefixStep(max: nat, actions: seq<Action>, k: nat)
    requires k < |actions|
    ensures Run(max, BOOT, actions[..k + 1]) == Do(max, Run(max, BOOT, actions[..k]), actions[k])
  {
    assert actions[..k + 1][..k] == actions[..k];
  }

  lemma {:induction false} HeldUpTo(max: nat, actions: seq<Action>, k: nat)
    requires k <= |actions|
    requires forall i: nat | i < k :: !LosesAt(max, actions, i)
    ensures RowsLatest(Run(max, BOOT, actions[..k])) && AllHeld(Run(max, BOOT, actions[..k]))
  {
    if k > 0 {
      HeldUpTo(max, actions, k - 1);
      PrefixStep(max, actions, k - 1);
      assert !LosesAt(max, actions, k - 1);
      StepHolds(max, Run(max, BOOT, actions[..k - 1]), actions[k - 1]);
    }
  }

  /** For every run, with any number of workers and crashes: the message accepted last
      under each id is at every point pending, embedded or dropped, if and only if no
      worker ever clears a row that was replaced under its hands and no worker ever embeds
      an older message over a newer one. */
  lemma HeldExactly(max: nat, actions: seq<Action>)
    ensures HeldThroughout(max, actions) <==> LosesNothing(max, actions)
  {
    if LosesNothing(max, actions) {
      forall k | 0 <= k <= |actions|
        ensures AllHeld(Run(max, BOOT, actions[..k]))
      {
        HeldUpTo(max, actions, k);
      }
    } else {
      var k := FirstLoss(max, actions);
      HeldUpTo(max, actions, k);
      PrefixStep(max, actions, k);
      StepHolds(max, Run(max, BOOT, actions[..k]), actions[k]);
      assert !AllHeld(Run(max, BOOT, actions[..k + 1]));
    }
  }

  lemma FirstLoss(max: nat, actions: seq<Action>) returns (k: nat)
    requires !LosesNothing(max, actions)
    ensures k < |actions| && LosesAt(max, actions, k)
    ensures forall i: nat | i < k :: !LosesAt(max, actions, i)
  {
    var later: nat :| later < |actions| && LosesAt(max, actions, later);
    k := later;
    while exists i: nat :: i < k && LosesAt(max, actions, i)
      invariant k < |actions| && LosesAt(max, actions, k)
      decreases k
    {
      var i: nat :| i < k && LosesAt(max, actions, i);
      k := i;
    }
  }

  /** Nothing of message `m` is left: no row, no copy in the channel or with a worker, no
      embedding, no tombstone. */
  ghost predicate Gone(s: State, m: Message) {
    && Latest(s.history, m.id) == Some(m) && m.id !in s.pending && !RowDropped(s.history, m.id)
    && m.id in s.index && s.index[m.id] != m && s.chan == [] && s.workers == map[]
  }

  /** Two different messages that share an id. */
  predicate Rivals(m: Message, n: Message) {
    m != n && m.id == n.id && Enqueues(Persist(m)) && Enqueues(Persist(n))
  }

  /** A worker embeds `m`; before it marks the row, `n` is enqueued under the same id, and
      Enqueue returns, its nudge in the channel; the worker marks; the process dies. */
  function Replacement(m: Message, n: Message): seq<Action> {
    FirstHalf(m) + [Persist(n), Nudge(n)] + [MarkIndexed(0, true), Crash]
  }

  function FirstHalf(m: Message): seq<Action> {
    [Persist(m)] + [Load(0, [m]), NextInBatch(0)] + [Embed(0, true), Upsert(0, true)]
  }

  lemma Taken(max: nat, m: Message)
    requires Enqueues(Persist(m))
    ensures var s := Do(max, Do(max, Do(max, BOOT, Persist(m)), Load(0, [m])), NextInBatch(0));
      s.WorkerAt(0) == Busy(Start(m), []) && s.chan == [] && s.history == [Stored(m.id, m)]
  {
    assert [m][1..] == [];
  }

  lemma EmbeddedBy0(max: nat, s: State, m: Message)
    requires s.WorkerAt(0) == Busy(Start(m), []) && s.chan == []
    ensures var t := Do(max, Do(max, s, Embed(0, true)), Upsert(0, true));
      && t.WorkerAt(0) == Busy(Upserted(m), []) && t.chan == [] && t.history == s.history
      && m.id in t.index && t.index[m.id] == m
  {}

  lemma EnqueuedBehind(max: nat, s: State, m: Message, n: Message)
    requires Rivals(m, n) && s.WorkerAt(0) == Busy(Upserted(m), []) && s.chan == []
    requires m.id in s.index && s.index[m.id] == m
    ensures var t := Do(max, Do(max, s, Persist(n)), Nudge(n));
      && t.WorkerAt(0) == Busy(Upserted(m), []) && t.chan == [n] && t.index == s.index
      && t.Row(m.id) == Some(n) && t.history == s.history + [Stored(n.id, n)]
  {
    assert Stored(n.id, n) in s.history + [Stored(n.id, n)];
  }

  lemma MarkedAndCrashed(max: nat, s: State, m: Message, n: Message, h: seq<Entry>)
    requires Rivals(m, n) && s.WorkerAt(0) == Busy(Upserted(m), []) && s.history == h + [Stored(n.id, n)]
    requires m.id in s.index && s.index[m.id] == m
    ensures Gone(Do(max, Do(max, s, MarkIndexed(0, true)), Crash), n)
  {
    LatestAppended(h, Stored(n.id, n), n.id);
    LatestAppended(s.history, Indexed(m.id), n.id);
    CrashIs(max, Do(max, s, MarkIndexed(0, true)));
  }

  /** Two more actions of one worker. */
  lemma RunTwo(max: nat, before: seq<Action>, a: Action, b: Action)
    requires UsesWorkers(before, 1) && UsesWorkers([a], 1) && UsesWorkers([b], 1)
    ensures UsesWorkers(before + [a, b], 1)
    ensures Run(max, BOOT, before + [a, b]) == Do(max, Do(max, Run(max, BOOT, before), a), b)
  {
    var one := before + [a];
    RunMore(max, before, a);
    RunMore(max, one, b);
    assert before + [a, b] == one + [b];
    assert a in [a] && b in [b];
  }

  lemma EmbeddedRun(max: nat, m: Message)
    requires Enqueues(Persist(m))
    ensures UsesWorkers(FirstHalf(m), 1)
    ensures var s := Run(max, BOOT, FirstHalf(m));
      s.WorkerAt(0) == Busy(Upserted(m), []) && s.chan == [] && m.id in s.index && s.index[m.id] == m
  {
    RunMore(max, [], Persist(m));
    Taken(max, m);
    RunTwo(max, [Persist(m)], Load(0, [m]), NextInBatch(0));
    EmbeddedBy0(max, Run(max, BOOT, [Persist(m)] + [Load(0, [m]), NextInBatch(0)]), m);
    RunTwo(max, [Persist(m)] + [Load(0, [m]), NextInBatch(0)], Embed(0, true), Upsert(0, true));
  }

  lemma RivalRun(max: nat, before: seq<Action>, m: Message, n: Message)
    requires Rivals(m, n) && UsesWorkers(before, 1)
    requires var s := Run(max, BOOT, before);
      s.WorkerAt(0) == Busy(Upserted(m), []) && s.chan == [] && m.id in s.index && s.index[m.id] == m
    ensures var actions := before + [Persist(n), Nudge(n)] + [MarkIndexed(0, true), Crash];
      UsesWorkers(actions, 1) && Gone(Run(max, BOOT, actions), n)
  {
    var s := Run(max, BOOT, before);
    EnqueuedBehind(max, s, m, n);
    RunTwo(max, before, Persist(n), Nudge(n));
    MarkedAndCrashed(max, Run(max, BOOT, before + [Persist(n), Nudge(n)]), m, n, s.history);
    RunTwo(max, before + [Persist(n), Nudge(n)], MarkIndexed(0, true), Crash);
  }

  /** One worker is enough to lose an accepted message for good. */
  lemma ReplacedRowLost(max: nat, m: Message, n: Message)
    requires Rivals(m, n)
    ensures UsesWorkers(Replacement(m, n), 1) && Gone(Run(max, BOOT, Replacement(m, n)), n)
  {
    EmbeddedRun(max, m);
    RivalRun(max, FirstHalf(m), m, n);
  }
}
