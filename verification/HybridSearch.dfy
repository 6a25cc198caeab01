/** Reciprocal rank fusion of a keyword ranking and a vector ranking
    (internal/app/hybrid_search.go), over real scores. */
module HybridSearch {
  import opened Text

  const RRF_K := 60

  /** `meta` is everything a hit carries besides its id and score. */
  datatype Hit = Hit(id: string, meta: string, score: real)

  function Ids(hits: seq<Hit>): seq<string> {
    seq(|hits|, i requires 0 <= i < |hits| => hits[i].id)
  }

  ghost function IdSet(ids: seq<string>): set<string> { set id | id in ids }

  /** The contribution of the entry at 0-based position `i`. */
  function Term(k: nat, i: nat): real { 1.0 / ((k + i + 1) as real) }

  /** Sum over the positions at which `id` occurs. */
  function ListScore(ids: seq<string>, k: nat, id: string): real {
    if ids == [] then 0.0
    else ListScore(ids[..|ids| - 1], k, id) + (if ids[|ids| - 1] == id then Term(k, |ids| - 1) else 0.0)
  }

  /** s(d): the sum of 1 / (k + rank) over both rankings. */
  function Score(bm: seq<Hit>, vec: seq<string>, k: nat, id: string): real {
    ListScore(Ids(bm), k, id) + ListScore(vec, k, id)
  }

  /** The metadata of the last keyword hit with this id; none for a vector-only id. */
  function Meta(bm: seq<Hit>, id: string): string {
    if bm == [] then ""
    else if bm[|bm| - 1].id == id then bm[|bm| - 1].meta
    else Meta(bm[..|bm| - 1], id)
  }

  function Entry(bm: seq<Hit>, vec: seq<string>, k: nat, id: string): Hit {
    Hit(id, Meta(bm, id), Score(bm, vec, k, id))
  }

  /** Score descending, then id ascending. */
  predicate Precedes(a: Hit, b: Hit) {
    a.score > b.score || (a.score == b.score && LexLT(a.id, b.id))
  }

  ghost predicate Ranked(hits: seq<Hit>) {
    forall i, j | 0 <= i < j < |hits| :: Precedes(hits[i], hits[j])
  }

  /** `full` is the fusion of both rankings without a limit. */
  ghost predicate IsFusion(full: seq<Hit>, bm: seq<Hit>, vec: seq<string>, k: nat) {
    && Ranked(full)
    && IdSet(Ids(full)) == IdSet(Ids(bm)) + IdSet(vec)
    && forall h <- full :: h == Entry(bm, vec, k, h.id)
  }

  /** trim */
  function Prefix<T>(hits: seq<T>, limit: int): seq<T> {
    if limit > 0 && |hits| > limit then hits[..limit] else hits
  }

  /** `out` is the beginning of `full`, as long as a positive limit lets it be. */
  ghost predicate Cut<T>(out: seq<T>, full: seq<T>, limit: int) {
    out <= full && |out| == if 0 < limit < |full| then limit else |full|
  }

  lemma PrefixCuts<T>(hits: seq<T>, limit: int)
    ensures Cut(Prefix(hits, limit), hits, limit)
  {}

  function EffectiveK(k: int): nat { if k <= 0 then RRF_K else k }

  /* ----- the order ----- */

  lemma PrecedesTotal(a: Hit, b: Hit)
    ensures a.id != b.id ==> Precedes(a, b) || Precedes(b, a)
    ensures !(Precedes(a, b) && Precedes(b, a))
  {
    LexTotal(a.id, b.id);
    if LexLE(a.id, b.id) && LexLE(b.id, a.id) {
      LexAntisymmetric(a.id, b.id);
    }
  }

  lemma PrecedesTransitive(a: Hit, b: Hit, c: Hit)
    requires Precedes(a, b) && Precedes(b, c)
    ensures Precedes(a, c)
  {
    if a.score == b.score == c.score {
      LexTransitive(a.id, b.id, c.id);
      if a.id == c.id {
        LexAntisymmetric(a.id, b.id);
      }
    }
  }

  lemma RankedDistinct(hits: seq<Hit>, i: nat, j: nat)
    requires Ranked(hits) && i < |hits| && j < |hits| && hits[i] == hits[j]
    ensures i == j
  {
    PrecedesTotal(hits[i], hits[j]);
  }

  /** Two ranked lists of the same hits are the same list. */
  lemma {:induction false} RankedUnique(a: seq<Hit>, b: seq<Hit>)
    requires Ranked(a) && Ranked(b) && forall h :: h in a <==> h in b
    ensures a == b
  {
    SameEmptiness(a, b);
    if a != [] {
      HeadsAgree(a, b);
      TailHits(a);
      TailHits(b);
      RankedUnique(a[1..], b[1..]);
      assert a == [a[0]] + a[1..] && b == [b[0]] + b[1..];
    }
  }

  lemma SameEmptiness(a: seq<Hit>, b: seq<Hit>)
    requires forall h :: h in a <==> h in b
    ensures a == [] <==> b == []
  {
    if a != [] { assert a[0] in b; }
    if b != [] { assert b[0] in a; }
  }

  lemma HeadsAgree(a: seq<Hit>, b: seq<Hit>)
    requires Ranked(a) && Ranked(b) && a != [] && b != [] && forall h :: h in a <==> h in b
    ensures a[0] == b[0]
  {
    assert a[0] in b && b[0] in a;
    FirstOf(a, b[0]);
    FirstOf(b, a[0]);
    PrecedesTotal(a[0], b[0]);
  }

  lemma FirstOf(a: seq<Hit>, h: Hit)
    requires Ranked(a) && h in a
    ensures h == a[0] || Precedes(a[0], h)
  {
    var i :| 0 <= i < |a| && a[i] == h;
  }

  lemma TailHits(a: seq<Hit>)
    requires Ranked(a) && a != []
    ensures forall h :: h in a[1..] <==> h in a && h != a[0]
  {
    forall h | h in a[1..]
      ensures h in a && h != a[0]
    {
      var i :| 0 <= i < |a[1..]| && a[1..][i] == h;
      assert a[i + 1] == h && Precedes(a[0], a[i + 1]);
      PrecedesTotal(a[0], h);
    }
  }

  lemma InIds(hits: seq<Hit>, id: string)
    ensures id in IdSet(Ids(hits)) <==> exists h <- hits :: h.id == id
  {
    if h :| h in hits && h.id == id {
      var i :| 0 <= i < |hits| && hits[i] == h;
      assert Ids(hits)[i] == id;
    }
    if id in Ids(hits) {
      var i :| 0 <= i < |Ids(hits)| && Ids(hits)[i] == id;
      assert hits[i] in hits;
    }
  }

  /** Whatever order the score map is ranged over, there is one fusion. */
  lemma FusionUnique(a: seq<Hit>, b: seq<Hit>, bm: seq<Hit>, vec: seq<string>, k: nat)
    requires IsFusion(a, bm, vec, k) && IsFusion(b, bm, vec, k)
    ensures a == b
  {
    forall h
      ensures h in a <==> h in b
    {
      InIds(a, h.id);
      InIds(b, h.id);
    }
    RankedUnique(a, b);
  }

  /** No id is listed twice. */
  lemma FusionHasDistinctIds(full: seq<Hit>, bm: seq<Hit>, vec: seq<string>, k: nat, i: nat, j: nat)
    requires IsFusion(full, bm, vec, k) && i < j < |full|
    ensures full[i].id != full[j].id
  {
    assert full[i] in full && full[j] in full;
    if full[i] == full[j] {
      RankedDistinct(full, i, j);
    }
  }

  /* ----- duplicate-free rankings ----- */

  ghost predicate DuplicateFree(ids: seq<string>) {
    forall i, j | 0 <= i < j < |ids| :: ids[i] != ids[j]
  }

  lemma {:induction false} AbsentScoresNothing(ids: seq<string>, k: nat, id: string)
    requires id !in ids
    ensures ListScore(ids, k, id) == 0.0
  {
    if ids != [] {
      AbsentScoresNothing(ids[..|ids| - 1], k, id);
    }
  }

  lemma {:induction false} SingleOccurrence(ids: seq<string>, k: nat, i: nat)
    requires DuplicateFree(ids) && i < |ids|
    ensures ListScore(ids, k, ids[i]) == Term(k, i)
  {
    var front := ids[..|ids| - 1];
    if i == |ids| - 1 {
      assert forall j | 0 <= j < |front| :: front[j] == ids[j];
      AbsentScoresNothing(front, k, ids[i]);
    } else {
      SingleOccurrence(front, k, i);
    }
  }

  lemma TermDecreases(k: nat, i: nat, j: nat)
    requires i < j
    ensures Term(k, i) > Term(k, j) > 0.0
  {
    var a, b := (k + i + 1) as real, (k + j + 1) as real;
    assert 0.0 < a < b;
    assert (1.0 / a) * a == 1.0 && (1.0 / b) * b == 1.0;
    assert 1.0 / b > 0.0;
    assert (1.0 / b) * b > (1.0 / b) * a;
  }

  /** An id that both rankings put before another one comes before it. */
  lemma DominanceKept(full: seq<Hit>, bm: seq<Hit>, vec: seq<string>, k: nat, i: nat, j: nat, p: nat, q: nat, x: nat, y: nat)
    requires IsFusion(full, bm, vec, k) && DuplicateFree(Ids(bm)) && DuplicateFree(vec)
    requires i < j < |bm| && p < q < |vec| && bm[i].id == vec[p] && bm[j].id == vec[q]
    requires x < |full| && y < |full| && full[x].id == bm[i].id && full[y].id == bm[j].id
    ensures x < y
  {
    SingleOccurrence(Ids(bm), k, i);
    SingleOccurrence(Ids(bm), k, j);
    SingleOccurrence(vec, k, p);
    SingleOccurrence(vec, k, q);
    TermDecreases(k, i, j);
    TermDecreases(k, p, q);
    assert full[x] in full && full[y] in full;
    PrecedesTotal(full[x], full[y]);
  }

  /** Fusing with an empty vector list keeps the keyword order. */
  lemma KeywordOrderKept(full: seq<Hit>, bm: seq<Hit>, k: nat)
    requires IsFusion(full, bm, [], k) && DuplicateFree(Ids(bm))
    ensures Ids(full) == Ids(bm)
  {
    var same := seq(|bm|, i requires 0 <= i < |bm| => Entry(bm, [], k, bm[i].id));
    forall i: nat | i < |bm|
      ensures same[i].score == Term(k, i)
    {
      SingleOccurrence(Ids(bm), k, i);
    }
    forall i, j | 0 <= i < j < |same|
      ensures Precedes(same[i], same[j])
    {
      TermDecreases(k, i, j);
    }
    assert Ids(same) == Ids(bm);
    FusionUnique(full, same, bm, [], k);
  }

  /* ----- the code ----- */

  lemma ScoreStep(ids: seq<string>, k: nat, i: nat, id: string)
    requires i < |ids|
    ensures ListScore(ids[..i + 1], k, id) == ListScore(ids[..i], k, id) + (if ids[i] == id then Term(k, i) else 0.0)
  {
    assert ids[..i + 1][..i] == ids[..i];
  }

  /** One `scores[id] += 1/(k+rank)` loop. */
  method AddRanking(scores: map<string, real>, ids: seq<string>, k: nat) returns (out: map<string, real>)
    ensures out.Keys == scores.Keys + IdSet(ids)
    ensures forall id | id in out :: out[id] == (if id in scores then scores[id] else 0.0) + ListScore(ids, k, id)
  {
    out := scores;
    for i := 0 to |ids|
      invariant out.Keys == scores.Keys + IdSet(ids[..i])
      invariant forall id | id in out :: out[id] == (if id in scores then scores[id] else 0.0) + ListScore(ids[..i], k, id)
    {
      forall id
        ensures ListScore(ids[..i + 1], k, id) == ListScore(ids[..i], k, id) + (if ids[i] == id then Term(k, i) else 0.0)
      {
        ScoreStep(ids, k, i, id);
      }
      if ids[i] !in out {
        AbsentScoresNothing(ids[..i], k, ids[i]);
      }
      assert IdSet(ids[..i + 1]) == IdSet(ids[..i]) + {ids[i]} by {
        assert ids[..i + 1] == ids[..i] + [ids[i]];
      }
      var before := if ids[i] in out then out[ids[i]] else 0.0;
      out := out[ids[i] := before + Term(k, i)];
    }
    assert ids[..|ids|] == ids;
  }

  /** meta[id] = h: the last one wins. */
  method CollectMeta(bm: seq<Hit>) returns (meta: map<string, string>)
    ensures meta.Keys == IdSet(Ids(bm))
    ensures forall id | id in meta :: meta[id] == Meta(bm, id)
  {
    meta := map[];
    for i := 0 to |bm|
      invariant meta.Keys == IdSet(Ids(bm[..i]))
      invariant forall id | id in meta :: meta[id] == Meta(bm[..i], id)
    {
      assert bm[..i + 1][..i] == bm[..i];
      assert Ids(bm[..i + 1]) == Ids(bm[..i]) + [bm[i].id];
      meta := meta[bm[i].id := bm[i].meta];
    }
    assert bm[..|bm|] == bm;
  }

  lemma NoMeta(bm: seq<Hit>, id: string)
    requires id !in IdSet(Ids(bm))
    ensures Meta(bm, id) == ""
  {
    if bm != [] {
      var front := bm[..|bm| - 1];
      assert Ids(bm)[|bm| - 1] == bm[|bm| - 1].id;
      assert forall i | 0 <= i < |front| :: Ids(front)[i] == Ids(bm)[i];
      NoMeta(front, id);
    }
  }

  /** Where a hit belongs in a ranked list. */
  method Slot(ranked: seq<Hit>, h: Hit) returns (at: nat)
    requires Ranked(ranked) && forall g <- ranked :: g.id != h.id
    ensures at <= |ranked|
    ensures forall i | 0 <= i < at :: Precedes(ranked[i], h)
    ensures forall i | at <= i < |ranked| :: Precedes(h, ranked[i])
  {
    at := 0;
    while at < |ranked| && Precedes(ranked[at], h)
      invariant at <= |ranked|
      invariant forall i | 0 <= i < at :: Precedes(ranked[i], h)
    {
      at := at + 1;
    }
    if at < |ranked| {
      PrecedesTotal(ranked[at], h);
      forall i | at < i < |ranked|
        ensures Precedes(h, ranked[i])
      {
        PrecedesTransitive(h, ranked[at], ranked[i]);
      }
    }
  }

  lemma InsertedRanked(ranked: seq<Hit>, at: nat, h: Hit)
    requires Ranked(ranked) && at <= |ranked|
    requires forall i | 0 <= i < at :: Precedes(ranked[i], h)
    requires forall i | at <= i < |ranked| :: Precedes(h, ranked[i])
    ensures Ranked(ranked[..at] + [h] + ranked[at..])
  {}

  lemma InsertedHits(ranked: seq<Hit>, at: nat, h: Hit)
    requires at <= |ranked|
    ensures forall g :: g in ranked[..at] + [h] + ranked[at..] <==> g == h || g in ranked
  {
    assert ranked == ranked[..at] + ranked[at..];
  }

  lemma InsertedIds(ranked: seq<Hit>, r: seq<Hit>, h: Hit)
    requires forall g :: g in r <==> g == h || g in ranked
    ensures IdSet(Ids(r)) == IdSet(Ids(ranked)) + {h.id}
  {
    forall id
      ensures id in IdSet(Ids(r)) <==> id in IdSet(Ids(ranked)) + {h.id}
    {
      InIds(r, id);
      InIds(ranked, id);
    }
  }

  /** The hits of a score map, ranged over in any order and sorted. */
  method RankAll(scores: map<string, real>, meta: map<string, string>) returns (out: seq<Hit>)
    ensures Ranked(out) && IdSet(Ids(out)) == scores.Keys
    ensures forall h <- out :: h.id in scores && h == Hit(h.id, if h.id in meta then meta[h.id] else "", scores[h.id])
  {
    out := [];
    var rest := scores.Keys;
    while rest != {}
      invariant rest <= scores.Keys && Ranked(out) && IdSet(Ids(out)) == scores.Keys - rest
      invariant forall h <- out :: h.id in scores && h == Hit(h.id, if h.id in meta then meta[h.id] else "", scores[h.id])
      decreases |rest|
    {
      var id :| id in rest;
      var h := Hit(id, if id in meta then meta[id] else "", scores[id]);
      InIds(out, id);
      var at := Slot(out, h);
      InsertedRanked(out, at, h);
      InsertedHits(out, at, h);
      InsertedIds(out, out[..at] + [h] + out[at..], h);
      out := out[..at] + [h] + out[at..];
      rest := rest - {id};
    }
  }

  /** `out` is the fusion of both rankings cut to the limit. */
  ghost predicate IsTrimmedFusion(out: seq<Hit>, bm: seq<Hit>, vec: seq<string>, k: nat, limit: int) {
    exists full :: IsFusion(full, bm, vec, k) && Cut(out, full, limit)
  }

  /** A limit gives the beginning of what no limit gives, as long as it lets it be. */
  lemma LimitIsPrefix(all: seq<Hit>, some: seq<Hit>, bm: seq<Hit>, vec: seq<string>, k: nat, limit: int)
    requires IsTrimmedFusion(all, bm, vec, k, 0) && IsTrimmedFusion(some, bm, vec, k, limit)
    ensures some <= all && |some| == if 0 < limit < |all| then limit else |all|
  {
    var f :| IsFusion(f, bm, vec, k) && Cut(all, f, 0);
    var g :| IsFusion(g, bm, vec, k) && Cut(some, g, limit);
    FusionUnique(f, g, bm, vec, k);
  }

  /** The order of the hits: score descending, ids of one score ascending. */
  lemma OrderMeans(full: seq<Hit>, bm: seq<Hit>, vec: seq<string>, k: nat, i: nat, j: nat)
    requires IsFusion(full, bm, vec, k) && i < j < |full|
    ensures full[i].score > full[j].score || (full[i].score == full[j].score && LexBefore(full[i].id, full[j].id))
  {
    assert Precedes(full[i], full[j]);
    LexMeans(full[i].id, full[j].id);
  }

  /** Whatever the limit leaves out comes after whatever it keeps: a lower score, or the
      same score and a greater id. */
  lemma BestAreKept(all: seq<Hit>, some: seq<Hit>, bm: seq<Hit>, vec: seq<string>, k: nat, limit: int, i: nat, h: Hit)
    requires IsTrimmedFusion(all, bm, vec, k, 0) && IsTrimmedFusion(some, bm, vec, k, limit)
    requires i < |some| && h in all && h !in some
    ensures some[i].score > h.score || (some[i].score == h.score && LexBefore(some[i].id, h.id))
  {
    LimitIsPrefix(all, some, bm, vec, k, limit);
    var f :| IsFusion(f, bm, vec, k) && Cut(all, f, 0);
    var j: nat :| j < |all| && all[j] == h;
    assert forall m | 0 <= m < |some| :: some[m] == all[m];
    OrderMeans(f, bm, vec, k, i, j);
  }

  /** The entry of an id in the fusion of two duplicate-free rankings: one reciprocal of
      k plus its rank for each ranking that has it, and the metadata of its keyword hit. */
  lemma EntryMeans(full: seq<Hit>, bm: seq<Hit>, vec: seq<string>, k: nat, h: Hit, i: nat, p: nat)
    requires IsFusion(full, bm, vec, k) && DuplicateFree(Ids(bm)) && DuplicateFree(vec) && h in full
    requires if h.id in Ids(bm) then i < |bm| && bm[i].id == h.id else i == |bm|
    requires if h.id in vec then p < |vec| && vec[p] == h.id else p == |vec|
    ensures h.score == (if i < |bm| then 1.0 / (k + i + 1) as real else 0.0) + (if p < |vec| then 1.0 / (k + p + 1) as real else 0.0)
    ensures h.meta == if i < |bm| then bm[i].meta else ""
  {
    if i < |bm| {
      SingleOccurrence(Ids(bm), k, i);
      SingleMeta(bm, i);
    } else {
      AbsentScoresNothing(Ids(bm), k, h.id);
      NoMeta(bm, h.id);
    }
    if p < |vec| {
      SingleOccurrence(vec, k, p);
    } else {
      AbsentScoresNothing(vec, k, h.id);
    }
  }

  lemma {:induction false} SingleMeta(bm: seq<Hit>, i: nat)
    requires DuplicateFree(Ids(bm)) && i < |bm|
    ensures Meta(bm, bm[i].id) == bm[i].meta
  {
    var n := |bm| - 1;
    if i < n {
      assert Ids(bm)[i] != Ids(bm)[n];
      assert Ids(bm[..n]) == Ids(bm)[..n];
      SingleMeta(bm[..n], i);
    }
  }

  /** FuseRRF */
  method FuseRRF(bm: seq<Hit>, vec: seq<string>, k: int, limit: int) returns (out: seq<Hit>)
    ensures IsTrimmedFusion(out, bm, vec, if k <= 0 then 60 else k, limit)
  {
    var k' := EffectiveK(k);
    var scores := AddRanking(map[], Ids(bm), k');
    scores := AddRanking(scores, vec, k');
    var meta := CollectMeta(bm);
    out := RankAll(scores, meta);
    ghost var full := out;
    forall h <- full
      ensures h == Entry(bm, vec, k', h.id)
    {
      if h.id !in meta {
        NoMeta(bm, h.id);
        AbsentScoresNothing(Ids(bm), k', h.id);
      }
    }
    assert IsFusion(full, bm, vec, k');
    PrefixCuts(full, limit);
    out := Prefix(out, limit);
  }

  /** Search: the retrievers' answers for a pool size are parameters; `dense` says
      whether embedder and index are wired and the query could be embedded. */
  method Search(bm25: nat -> Option<seq<Hit>>, knn: nat -> Option<seq<string>>, dense: bool, limit: int, multiplier: int)
    returns (r: Option<seq<Hit>>)
    ensures var n: nat := if limit <= 0 then 20 else limit;
      var pool: nat := n * (if multiplier <= 0 then 3 else multiplier);
      match bm25(pool)
      case None => r == None
      case Some(bm) =>
        if !dense || knn(pool).None? then r.Some? && Cut(r.value, bm, n)
        else r.Some? && IsTrimmedFusion(r.value, bm, knn(pool).value, 60, n)
  {
    var n: nat := if limit <= 0 then 20 else limit;
    var m: nat := if multiplier <= 0 then 3 else multiplier;
    var pool: nat := n * m;
    var bm := bm25(pool);
    if bm.None? {
      return None;
    }
    PrefixCuts(bm.value, n);
    if !dense {
      return Some(Prefix(bm.value, n));
    }
    var vec := knn(pool);
    if vec.None? {
      return Some(Prefix(bm.value, n));
    }
    var fused := FuseRRF(bm.value, vec.value, RRF_K, n);
    return Some(fused);
  }

  /** Degrading to keyword search never reorders: it lists the ids that fusing with
      an empty vector answer would. */
  lemma FallbackAgrees(fused: seq<Hit>, plain: seq<Hit>, bm: seq<Hit>, k: nat, limit: int)
    requires IsTrimmedFusion(fused, bm, [], k, limit) && DuplicateFree(Ids(bm)) && Cut(plain, bm, limit)
    ensures Ids(fused) == Ids(plain)
  {
    var full :| IsFusion(full, bm, [], k) && Cut(fused, full, limit);
    KeywordOrderKept(full, bm, k);
    assert |full| == |Ids(full)| == |bm|;
    forall i | 0 <= i < |fused|
      ensures fused[i].id == plain[i].id
    {
      assert Ids(full)[i] == Ids(bm)[i];
    }
  }
}
