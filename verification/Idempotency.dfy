/** The replay protocol for side-effecting calls: IdempotencyExec over the Check/Record
    port and idempotentCall over LoadOrStore (internal/app/idempotency.go,
    internal/app/method_idempotency.go). Fingerprints are canonical bytes. */
module Idempotency {
  import opened Text
  import opened CanonicalJson

  const KEY_TTL := 24 * 3600

  /** `method` is empty for the Check/Record surface. */
  datatype Id = Id(method_: string, profile: string, key: string)

  datatype Row = Row(fingerprint: string, result: string, expires: int)

  type Rows = map<Id, Row>

  datatype Reply = Fresh(result: string) | Replayed(result: string) | Conflict | Failed

  /** What the environment does during one call: the store's clock, the outcome of
      the callback, and whether a store access fails. */
  datatype World = World(at: int, run: Option<string>, checkFails: bool, recordFails: bool)

  datatype Step = Step(rows: Rows, reply: Reply, ran: bool)

  predicate Live(rows: Rows, id: Id, at: int) { id in rows && rows[id].expires > at }

  /** One protected call. */
  ghost function Exec(rows: Rows, id: Id, params: Json, expires: int, w: World): Step {
    if w.checkFails then Step(rows, Failed, false)
    else if Live(rows, id, w.at) then
      Step(rows, if rows[id].fingerprint == Canonical(params) then Replayed(rows[id].result) else Conflict, false)
    else if w.run.None? || w.recordFails then Step(rows, Failed, true)
    else Step(rows[id := Row(Canonical(params), w.run.value, expires)], Fresh(w.run.value), true)
  }

  /** The reply of a call that bypasses the cache. */
  function Verbatim(outcome: Option<string>): Reply {
    match outcome case Some(r) => Fresh(r) case None => Failed
  }

  /** What a protected call does, outcome by outcome: it runs the callback exactly when the
      check went through and found no live row; the stored result goes to equal params, a
      conflict to others; only a run that returned and was recorded is fresh, and it alone
      changes the rows. */
  lemma CallOutcome(rows: Rows, id: Id, params: Json, expires: int, w: World, v: string)
    ensures var s, found := Exec(rows, id, params, expires, w), !w.checkFails && id in rows && rows[id].expires > w.at;
      && (s.ran <==> !w.checkFails && !found)
      && (s.reply == Replayed(v) <==> found && rows[id].fingerprint == Canonical(params) && rows[id].result == v)
      && (s.reply == Conflict <==> found && rows[id].fingerprint != Canonical(params))
      && (s.reply == Fresh(v) <==> s.ran && w.run == Some(v) && !w.recordFails)
      && (s.reply == Failed <==> w.checkFails || (s.ran && (w.run == None || w.recordFails)))
      && (s.reply == Fresh(v) ==> s.rows == rows[id := Row(Canonical(params), v, expires)])
      && (!s.reply.Fresh? ==> s.rows == rows)
  {}

  predicate IsKeyChar(c: char) {
    'A' <= c <= 'Z' || 'a' <= c <= 'z' || IsDigit(c) || c == '_' || c == '-'
  }

  /** domain.NewIdempotencyKey's pattern. */
  predicate ValidKey(key: string) {
    1 <= |key| <= 64 && forall c <- key :: IsKeyChar(c)
  }

  /** Callback whose runs are counted. */
  class Callback {
    const outcome: Option<string>
    var runs: nat

    constructor (outcome: Option<string>)
      ensures this.outcome == outcome && runs == 0
    {
      this.outcome := outcome;
      runs := 0;
    }

    method Run() returns (r: Option<string>)
      modifies this
      ensures r == outcome && runs == old(runs) + 1
    {
      runs := runs + 1;
      r := outcome;
    }
  }

  datatype CheckResult = Hit(result: string) | Miss | Mismatch | CheckError

  /** What a store with these rows answers at time `at`. */
  function Lookup(rows: Rows, id: Id, fingerprint: string, at: int): CheckResult {
    if !Live(rows, id, at) then Miss
    else if rows[id].fingerprint == fingerprint then Hit(rows[id].result)
    else Mismatch
  }

  class Store {
    var rows: Rows

    constructor ()
      ensures rows == map[]
    {
      rows := map[];
    }

    method Check(id: Id, fingerprint: string, w: World) returns (r: CheckResult)
      ensures r == if w.checkFails then CheckError else Lookup(rows, id, fingerprint, w.at)
    {
      if w.checkFails {
        return CheckError;
      }
      if id !in rows || rows[id].expires <= w.at {
        return Miss;
      }
      return if rows[id].fingerprint == fingerprint then Hit(rows[id].result) else Mismatch;
    }

    method Record(id: Id, fingerprint: string, result: string, expires: int, w: World) returns (ok: bool)
      modifies this
      ensures ok == !w.recordFails
      ensures rows == if ok then old(rows)[id := Row(fingerprint, result, expires)] else old(rows)
      ensures ok ==> forall at | at < expires :: Lookup(rows, id, fingerprint, at) == Hit(result)
      ensures ok ==> forall other, fp, at | other != id :: Lookup(rows, other, fp, at) == Lookup(old(rows), other, fp, at)
    {
      ok := !w.recordFails;
      if ok {
        rows := rows[id := Row(fingerprint, result, expires)];
      }
    }

    method Sweep(before: int)
      modifies this
      ensures rows == Swept(old(rows), before)
      ensures forall id, fp, at | at >= before :: Lookup(rows, id, fp, at) == Lookup(old(rows), id, fp, at)
      ensures forall id | id in rows :: Live(rows, id, before)
    {
      rows := map id | id in rows && rows[id].expires > before :: rows[id];
    }

    /** LoadOrStore: an empty key bypasses the cache. */
    method LoadOrStore(id: Id, fingerprint: string, fn: Callback, w: World) returns (reply: Reply)
      requires w.run == fn.outcome
      modifies this, fn
      ensures id.key == "" ==>
        && rows == old(rows) && fn.runs == old(fn.runs) + 1
        && match fn.outcome { case Some(v) => reply == Fresh(v) case None => reply == Failed }
      ensures id.key != "" ==> forall params | Canonical(params) == fingerprint ::
        Step(rows, reply, fn.runs > old(fn.runs)) == Exec(old(rows), id, params, w.at + 86400, w)
      ensures fn.runs <= old(fn.runs) + 1
    {
      if id.key == "" {
        var out := fn.Run();
        return Verbatim(out);
      }
      var cached := Check(id, fingerprint, w);
      match cached {
        case CheckError => return Failed;
        case Mismatch => return Conflict;
        case Hit(result) => return Replayed(result);
        case Miss =>
          var out := fn.Run();
          if out.None? {
            return Failed;
          }
          var ok := Record(id, fingerprint, out.value, w.at + KEY_TTL, w);
          return if ok then Fresh(out.value) else Failed;
      }
    }
  }

  ghost function Swept(rows: Rows, before: int): Rows {
    map id | id in rows && rows[id].expires > before :: rows[id]
  }

  /** What is recorded is found: until it expires, by the same params up to reserved
      keys and by no others, and under no other id. */
  lemma RecordedIsFound(rows: Rows, id: Id, params: Json, result: string, expires: int, other: Id, again: Json, at: int)
    ensures var after := rows[id := Row(Canonical(params), result, expires)];
      Lookup(after, other, Canonical(again), at)
      == if other != id then Lookup(rows, other, Canonical(again), at)
         else if at >= expires then Miss
         else if Strip(again) == Strip(params) then Hit(result)
         else Mismatch
  {
    CanonicalInjective(again, params);
  }

  /** A sweep up to `before` is invisible to every check from then on, takes every
      row that has expired by then, and takes nothing else. */
  lemma SweepInvisible(rows: Rows, before: int, id: Id, fingerprint: string, at: int)
    requires at >= before
    ensures Lookup(Swept(rows, before), id, fingerprint, at) == Lookup(rows, id, fingerprint, at)
    ensures id in Swept(rows, before) <==> Live(rows, id, before)
  {
    assert Live(Swept(rows, before), id, at) <==> Live(rows, id, at);
  }

  /** IdempotencyExec: fingerprint, check, run, record. `now` is the caller's clock;
      results are their JSON texts. */
  method IdempotencyExec(store: Store, profile: string, key: string, params: Json, now: int, fn: Callback, w: World)
    returns (reply: Reply)
    requires w.run == fn.outcome
    modifies store, fn
    ensures var valid := 1 <= |key| <= 64
              && forall c <- key :: 'A' <= c <= 'Z' || 'a' <= c <= 'z' || '0' <= c <= '9' || c == '_' || c == '-';
      if valid then
        Step(store.rows, reply, fn.runs > old(fn.runs)) == Exec(old(store.rows), Id("", profile, key), params, now + 86400, w)
      else reply == Failed && store.rows == old(store.rows) && fn.runs == old(fn.runs)
    ensures fn.runs <= old(fn.runs) + 1
  {
    var canonical := CanonicalJSON(params);
    if !ValidKey(key) {
      return Failed;
    }
    var id := Id("", profile, key);
    var cached := store.Check(id, canonical, w);
    match cached {
      case CheckError => return Failed;
      case Mismatch => return Conflict;
      case Hit(result) => return Replayed(result);
      case Miss =>
        var result := fn.Run();
        if result.None? {
          return Failed;
        }
        var ok := store.Record(id, canonical, result.value, now + KEY_TTL, w);
        return if ok then Fresh(result.value) else Failed;
    }
  }

  /** idempotentCall: `key` is the payload's idempotencyKey, `params` the decoded
      payload, or None when it does not parse; `sidecar` is null when unwired. */
  method IdempotentCall(sidecar: Store?, method_: string, profile: string, key: string, params: Option<Json>,
                        fn: Callback, w: World)
    returns (reply: Reply)
    requires w.run == fn.outcome
    modifies sidecar, fn
    ensures key == "" || sidecar == null ==>
      fn.runs == old(fn.runs) + 1 && match fn.outcome { case Some(v) => reply == Fresh(v) case None => reply == Failed }
    ensures key == "" && sidecar != null ==> sidecar.rows == old(sidecar.rows)
    ensures key != "" && sidecar != null && params.None? ==>
      reply == Failed && fn.runs == old(fn.runs) && sidecar.rows == old(sidecar.rows)
    ensures key != "" && sidecar != null && params.Some? ==>
      Step(sidecar.rows, reply, fn.runs > old(fn.runs))
      == Exec(old(sidecar.rows), Id(method_, profile, key), params.value, w.at + 86400, w)
  {
    if key == "" || sidecar == null {
      var out := fn.Run();
      return Verbatim(out);
    }
    if params.None? {
      return Failed;
    }
    var hash := CanonicalJSON(params.value);
    reply := sidecar.LoadOrStore(Id(method_, profile, key), hash, fn, w);
  }

  /* ----- histories ----- */

  datatype Op =
    | Do(id: Id, params: Json, expires: int, world: World)
    | Sweep(before: int)

  ghost function Apply(rows: Rows, op: Op): Rows {
    match op
    case Do(id, params, expires, w) => Exec(rows, id, params, expires, w).rows
    case Sweep(before) => Swept(rows, before)
  }

  ghost function Run(rows: Rows, ops: seq<Op>): Rows {
    if ops == [] then rows else Apply(Run(rows, ops[..|ops| - 1]), ops[|ops| - 1])
  }

  /** Every clock reading in the history is before `t`. */
  ghost predicate Before(ops: seq<Op>, t: int) {
    forall op <- ops :: match op case Do(_, _, _, w) => w.at < t case Sweep(before) => before < t
  }

  /** Nothing that happens while a row is live touches it. */
  lemma {:induction false} LiveRowKept(rows: Rows, ops: seq<Op>, id: Id)
    requires id in rows && Before(ops, rows[id].expires)
    ensures id in Run(rows, ops) && Run(rows, ops)[id] == rows[id]
  {
    if ops != [] {
      var front, last := ops[..|ops| - 1], ops[|ops| - 1];
      assert forall op <- front :: op in ops;
      LiveRowKept(rows, front, id);
      assert last in ops;
    }
  }

  /** Once a call has succeeded, any later call with its key, whatever happened in
      between, never runs the callback while the row is live: the same params get
      the recorded result back, params that differ as JSON values conflict. */
  lemma LiveKeyReplays(rows: Rows, id: Id, params: Json, expires: int, w: World, ops: seq<Op>,
                       again: Json, expires': int, w': World)
    requires Exec(rows, id, params, expires, w).reply.Fresh?
    requires Before(ops, expires) && w'.at < expires && !w'.checkFails
    ensures var after := Run(Exec(rows, id, params, expires, w).rows, ops);
      var second := Exec(after, id, again, expires', w');
      && !second.ran && second.rows == after
      && (Strip(again) == Strip(params) ==> second.reply == Replayed(Exec(rows, id, params, expires, w).reply.result))
      && (Strip(again) != Strip(params) ==> second.reply == Conflict)
  {
    var first := Exec(rows, id, params, expires, w).rows;
    LiveRowKept(first, ops, id);
    CanonicalInjective(again, params);
  }

  lemma {:induction false} RunSplit(rows: Rows, xs: seq<Op>, ys: seq<Op>)
    ensures Run(rows, xs + ys) == Run(Run(rows, xs), ys)
  {
    if ys == [] {
      assert xs + ys == xs;
    } else {
      var front := ys[..|ys| - 1];
      RunSplit(rows, xs, front);
      assert (xs + ys)[..|xs + ys| - 1] == xs + front;
    }
  }

  /** A call that fails, be it in the check, in the callback or in recording the result,
      one that is answered from the store, and one that conflicts, can be taken out of any
      history: only a fresh success leaves a trace. After a failure the next call runs the
      callback again. */
  lemma FailureLeavesNoTrace(rows: Rows, before: seq<Op>, after: seq<Op>, id: Id, params: Json, expires: int, w: World,
                             w': World, again: Json)
    requires !Exec(Run(rows, before), id, params, expires, w).reply.Fresh?
    ensures Run(rows, before + [Do(id, params, expires, w)] + after) == Run(rows, before + after)
    ensures Exec(Run(rows, before), id, params, expires, w).ran && w'.at >= w.at && !w'.checkFails ==>
      Exec(Run(rows, before + [Do(id, params, expires, w)]), id, again, expires, w').ran
  {
    var op := Do(id, params, expires, w);
    RunSplit(rows, before, [op]);
    RunSplit(rows, before + [op], after);
    RunSplit(rows, before, after);
    assert [op][..0] == [];
    assert Run(rows, before + [op]) == Run(rows, before);
  }
}
