/** Catching the filter header store up with filter checkpoints: the height range is split
    into queries between checkpoints, answers are checked against the two checkpoints around
    them, answers that come early are kept, and everything is written strictly in order. */
module FilterSync {
  import opened Chain
  import opened FilterHeaders

  /** A cfheaders message. */
  datatype CFHeaders = CFHeaders(stop: Hash, prev: FilterHeader, hashes: seq<int>)

  /** interval is wire.CFCheckptInterval, perQuery is maxCFCheckptsPerQuery, genesis is the
      filter header of the genesis block. */
  datatype Plan = Plan(interval: nat, perQuery: nat, checkpoints: seq<FilterHeader>, genesis: FilterHeader)

  // ---------- queries ----------

  /** A query: the checkpoint interval it starts at, and the heights of the headers before
      its first and at its end. */
  datatype Query = Query(interval: nat, low: nat, high: nat)

  /** The interval after the query that starts at interval k. */
  function Next(plan: Plan, k: nat): nat {
    if k + plan.perQuery > |plan.checkpoints| then |plan.checkpoints| else k + plan.perQuery
  }

  /** All queries from interval k on. */
  function Queries(plan: Plan, k: nat): seq<Query>
    requires 0 < plan.perQuery
    decreases |plan.checkpoints| - k
  {
    if k >= |plan.checkpoints| then []
    else [Query(k, Mark(plan.interval, k), Mark(plan.interval, Next(plan, k)))] + Queries(plan, Next(plan, k))
  }

  /** The interval at which query j starts, or the number of checkpoints after the last. */
  function IntervalAt(plan: Plan, qs: seq<Query>, j: nat): nat {
    if j < |qs| then qs[j].interval else |plan.checkpoints|
  }

  predicate QueryAt(plan: Plan, qs: seq<Query>, j: nat)
    requires j < |qs| && 0 < plan.interval
  {
    var q := qs[j];
    && q.interval < Next(plan, q.interval) == IntervalAt(plan, qs, j + 1) <= |plan.checkpoints|
    && q.low == Mark(plan.interval, q.interval) < q.high == Mark(plan.interval, Next(plan, q.interval))
    && LastMark(plan.interval, q.high) == IntervalAt(plan, qs, j + 1)
    && (j + 1 < |qs| ==> qs[j + 1].low == q.high)
  }

  /** The queries follow one another without gap up to the last checkpoint. */
  lemma {:induction false} QueriesConnect(plan: Plan, k: nat, j: nat)
    requires 0 < plan.perQuery && 0 < plan.interval && k <= |plan.checkpoints|
    ensures IntervalAt(plan, Queries(plan, k), 0) == k
    ensures j < |Queries(plan, k)| ==> QueryAt(plan, Queries(plan, k), j)
    decreases |plan.checkpoints| - k
  {
    if k < |plan.checkpoints| {
      var qs, next := Queries(plan, k), Next(plan, k);
      QueriesConnect(plan, next, 0);
      if 0 < j { QueriesConnect(plan, next, j - 1); }
      MarkMono(plan.interval, k, next);
      MarkExact(plan.interval, next);
      assert qs[1..] == Queries(plan, next);
      assert j < |qs| && 0 < j ==> qs[j] == qs[1..][j - 1];
      assert j + 1 < |qs| ==> qs[j + 1] == qs[1..][j];
    }
  }

  /** Queries with their facts in reach. */
  ghost predicate Connected(plan: Plan, qs: seq<Query>) {
    0 < plan.interval && forall j :: 0 <= j < |qs| ==> QueryAt(plan, qs, j)
  }

  lemma {:induction false} QueriesApart(plan: Plan, qs: seq<Query>, i: nat, j: nat)
    requires Connected(plan, qs) && i < j <= |qs|
    ensures qs[i].interval < IntervalAt(plan, qs, j)
    ensures j < |qs| ==> qs[i].high <= qs[j].low
    decreases j
  {
    assert QueryAt(plan, qs, i);
    if i < j - 1 {
      QueriesApart(plan, qs, i, j - 1);
      assert QueryAt(plan, qs, j - 1);
    }
  }

  // ---------- checkpoints and answers ----------

  /** The checkpoints were sampled from the filter header chain c, and a block header is
      stored for every checkpoint. */
  ghost predicate Sampled(plan: Plan, c: seq<FilterHeader>, blocks: seq<Header>) {
    var last := Mark(plan.interval, |plan.checkpoints|);
    && 0 < plan.interval && 0 < plan.perQuery && FilterChain(c) && last < |c| && last < |blocks|
    && forall k :: 0 <= k <= |plan.checkpoints| ==> SampledAt(plan, c, blocks, k)
  }

  /** The checkpoint before interval k, genesis for the first one. */
  function Before(plan: Plan, k: nat): FilterHeader
    requires k <= |plan.checkpoints|
  {
    if k == 0 then plan.genesis else plan.checkpoints[k - 1]
  }

  predicate SampledAt(plan: Plan, c: seq<FilterHeader>, blocks: seq<Header>, k: nat)
    requires k <= |plan.checkpoints|
  {
    var at := Mark(plan.interval, k);
    at < |c| && at < |blocks| && Before(plan, k) == c[at]
  }

  /** r is the answer to query q: what lies between its two heights on the chain. */
  ghost predicate Answers(c: seq<FilterHeader>, blocks: seq<Header>, q: Query, r: CFHeaders) {
    && q.low <= q.high < |c| && q.high < |blocks|
    && r == CFHeaders(HashOf(blocks[q.high]), c[q.low], Hashes(c, q.low, q.high))
  }

  /** Two messages accepted between the same two checkpoints carry the same filter hashes. */
  lemma {:induction false} VerifiedAreEqual(prev: FilterHeader, next: FilterHeader, r: CFHeaders, t: CFHeaders)
    requires r.prev == t.prev == prev && Fold(r.prev, r.hashes) == Fold(t.prev, t.hashes) == next
    ensures r.hashes == t.hashes
  {
    FoldInjective(prev, r.hashes, t.hashes);
  }

  /** A message passes the check for query q exactly when it is the answer to q. */
  lemma {:induction false} VerifiedAnswers(
      plan: Plan, c: seq<FilterHeader>, blocks: seq<Header>, qs: seq<Query>, j: nat, r: CFHeaders)
    requires Sampled(plan, c, blocks) && Connected(plan, qs) && j < |qs|
    ensures var q := qs[j];
      var next := Next(plan, q.interval);
      && q.interval < next <= |plan.checkpoints| && q.high < |blocks|
      && (&& r.prev == Before(plan, q.interval) && Fold(r.prev, r.hashes) == Before(plan, next)
          && r.stop == HashOf(blocks[q.high])
          <==> Answers(c, blocks, q, r))
  {
    var q := qs[j];
    assert QueryAt(plan, qs, j);
    assert SampledAt(plan, c, blocks, q.interval) && SampledAt(plan, c, blocks, Next(plan, q.interval));
    FoldHashes(c, q.low, q.high);
    if r.prev == c[q.low] && Fold(r.prev, r.hashes) == c[q.high] {
      FoldInjective(c[q.low], r.hashes, Hashes(c, q.low, q.high));
    }
  }

  // ---------- the state of a run ----------

  /** The height reached after the first pos queries of a run that began at height first. */
  function HeightAt(first: nat, qs: seq<Query>, pos: nat): nat
    requires pos <= |qs|
  {
    if pos == 0 then first else qs[pos - 1].high
  }

  /** What the queue of early answers and the set got of answered queries say about query j
      when pos queries are written. */
  ghost predicate QueuedAt(
      c: seq<FilterHeader>, blocks: seq<Header>, qs: seq<Query>, pos: nat, queue: map<nat, CFHeaders>, got: set<nat>,
      j: nat)
    requires j < |qs|
  {
    var k := qs[j].interval;
    && (k in queue <==> pos <= j && j in got)
    && (j < pos ==> j in got)
    && (k in queue ==> Answers(c, blocks, qs[j], queue[k]))
  }

  /** The first pos of the queries are written, and the queue holds the answers of others. */
  ghost predicate RunOk(
      plan: Plan, c: seq<FilterHeader>, blocks: seq<Header>, first: nat, qs: seq<Query>, pos: nat,
      queue: map<nat, CFHeaders>, got: set<nat>)
  {
    && Connected(plan, qs) && pos <= |qs| && |plan.checkpoints| !in queue
    && (0 < |qs| ==> qs[0].low <= first < qs[0].high)
    && (forall j :: j in got ==> j < |qs|)
    && (forall j :: 0 <= j < |qs| ==> QueuedAt(c, blocks, qs, pos, queue, got, j))
  }

  lemma {:induction false} RunStarts(plan: Plan, c: seq<FilterHeader>, blocks: seq<Header>, first: nat)
    requires 0 < plan.interval && 0 < plan.perQuery && LastMark(plan.interval, first) < |plan.checkpoints|
    ensures var qs := Queries(plan, LastMark(plan.interval, first));
      0 < |qs| && qs[0].interval == LastMark(plan.interval, first) && RunOk(plan, c, blocks, first, qs, 0, map[], {})
  {
    var start := LastMark(plan.interval, first);
    var qs := Queries(plan, start);
    forall j | 0 <= j < |qs| ensures QueryAt(plan, qs, j) { QueriesConnect(plan, start, j); }
    MarkBelow(plan.interval, first);
    MarkMono(plan.interval, start, Next(plan, start));
  }

  /** An answer is for a range already written exactly when its query is behind pos. */
  lemma {:induction false} AnswerPosition(
      plan: Plan, c: seq<FilterHeader>, blocks: seq<Header>, first: nat, qs: seq<Query>, pos: nat,
      queue: map<nat, CFHeaders>, got: set<nat>, j: nat)
    requires RunOk(plan, c, blocks, first, qs, pos, queue, got) && j < |qs|
    ensures qs[j].high <= HeightAt(first, qs, pos) <==> j < pos
    ensures j < pos ==> j in got
  {
    assert QueuedAt(c, blocks, qs, pos, queue, got, j) && QueryAt(plan, qs, j);
    if j < pos - 1 {
      QueriesApart(plan, qs, j, pos - 1);
      assert QueryAt(plan, qs, pos - 1);
    } else if pos <= j && 0 < pos {
      QueriesApart(plan, qs, pos - 1, j);
    } else if 0 < j && pos == 0 {
      QueriesApart(plan, qs, 0, j);
    }
  }

  /** Taking an answer that is not behind the write position. */
  lemma {:induction false} Enqueued(
      plan: Plan, c: seq<FilterHeader>, blocks: seq<Header>, first: nat, qs: seq<Query>, pos: nat,
      queue: map<nat, CFHeaders>, got: set<nat>, j: nat, r: CFHeaders)
    requires RunOk(plan, c, blocks, first, qs, pos, queue, got) && pos <= j < |qs| && Answers(c, blocks, qs[j], r)
    ensures RunOk(plan, c, blocks, first, qs, pos, queue[qs[j].interval := r], got + {j})
  {
    assert QueryAt(plan, qs, j);
    var queue', got' := queue[qs[j].interval := r], got + {j};
    forall i | 0 <= i < |qs| ensures QueuedAt(c, blocks, qs, pos, queue', got', i) {
      assert QueuedAt(c, blocks, qs, pos, queue, got, i);
      if i < j { QueriesApart(plan, qs, i, j); }
      if j < i { QueriesApart(plan, qs, j, i); }
    }
  }

  /** The answer at the write position, and the part of it that is still to be written: all
      of it, or at the very first write what lies above the height the run began at. */
  lemma {:induction false} AlignedWrite(
      plan: Plan, c: seq<FilterHeader>, blocks: seq<Header>, first: nat, qs: seq<Query>, pos: nat,
      queue: map<nat, CFHeaders>, got: set<nat>)
    requires RunOk(plan, c, blocks, first, qs, pos, queue, got)
    requires IntervalAt(plan, qs, pos) in queue
    ensures pos < |qs| && pos in got
    ensures var q, height := qs[pos], HeightAt(first, qs, pos);
      var r := queue[q.interval];
      && q.low <= height < q.high < |c| && q.high < |blocks|
      && r.stop == HashOf(blocks[q.high]) && |r.hashes| == q.high - q.low
      && (0 < pos ==> height == q.low && r.prev == c[height])
      && r.hashes[height - q.low..] == Hashes(c, height, q.high)
  {
    var q, height := qs[pos], HeightAt(first, qs, pos);
    assert QueryAt(plan, qs, pos) && QueuedAt(c, blocks, qs, pos, queue, got, pos);
    if 0 < pos { assert QueryAt(plan, qs, pos - 1); }
    HashesTail(c, q.low, height, q.high);
  }

  /** After the write the run stands at the next query. */
  lemma {:induction false} Advanced(
      plan: Plan, c: seq<FilterHeader>, blocks: seq<Header>, first: nat, qs: seq<Query>, pos: nat,
      queue: map<nat, CFHeaders>, got: set<nat>)
    requires RunOk(plan, c, blocks, first, qs, pos, queue, got) && pos < |qs| && pos in got
    ensures RunOk(plan, c, blocks, first, qs, pos + 1, queue - {qs[pos].interval}, got)
    ensures LastMark(plan.interval, qs[pos].high) == IntervalAt(plan, qs, pos + 1)
  {
    assert QueryAt(plan, qs, pos);
    var pos', queue' := pos + 1, queue - {qs[pos].interval};
    forall i | 0 <= i < |qs| ensures QueuedAt(c, blocks, qs, pos', queue', got, i) {
      assert QueuedAt(c, blocks, qs, pos, queue, got, i);
      if i < pos { QueriesApart(plan, qs, i, pos); }
      if pos < i { QueriesApart(plan, qs, pos, i); }
    }
  }

  /** A run with no answer at its write position is finished exactly when every query was
      answered, and then the last checkpoint is reached. */
  lemma {:induction false} FinishedWhenAllAnswered(
      plan: Plan, c: seq<FilterHeader>, blocks: seq<Header>, first: nat, qs: seq<Query>, pos: nat,
      queue: map<nat, CFHeaders>, got: set<nat>)
    requires RunOk(plan, c, blocks, first, qs, pos, queue, got) && IntervalAt(plan, qs, pos) !in queue && 0 < |qs|
    ensures IntervalAt(plan, qs, pos) >= |plan.checkpoints| <==> pos == |qs|
    ensures pos == |qs| <==> forall j :: 0 <= j < |qs| ==> j in got
    ensures pos == |qs| ==> HeightAt(first, qs, pos) == Mark(plan.interval, |plan.checkpoints|)
  {
    if pos < |qs| {
      assert QueryAt(plan, qs, pos) && QueuedAt(c, blocks, qs, pos, queue, got, pos);
    } else {
      assert QueryAt(plan, qs, pos - 1);
      forall j | 0 <= j < |qs| ensures j in got { assert QueuedAt(c, blocks, qs, pos, queue, got, j); }
    }
  }

  /** Filter headers of a chain are pairwise distinct. */
  lemma {:induction false} FilterDistinct(c: seq<FilterHeader>, a: nat, b: nat)
    requires FilterChain(c) && a < b < |c|
    ensures c[a] != c[b]
  {
    FoldHashes(c, a, b);
    FoldDepth(c[a], Hashes(c, a, b));
  }
}
