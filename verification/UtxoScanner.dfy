/**
 * The scanner of UTXO requests (spv/utxoscanner.go). A priority queue by birth height feeds
 * batches; a batch scans upward, takes in the requests born at each height, puts those born
 * below it aside for the next batch, and reads only blocks with new requests or a filter match.
 *
 * A priority queue is a set with a method that picks an element of least birth. What happens
 * outside (requests arriving, snapshots of the best height, errors and the stop signal) is an
 * Env, given by the height at which it happens; a batch visits every height at most once.
 */
module UtxoScanner {
  import opened Chain
  import opened SpendReporter
  import opened UtxoScan

  datatype Input = Input(op: OutPoint, script: int, birth: nat)
  datatype Snapshot = Best(height: nat) | NoSnapshot(error: Error)
  /** An error or the stop signal: before the requests of a height are dequeued, at its filter,
      or between dequeuing and processing its block. */
  datatype Fault = NoFault | AtHash(error: Error) | AtFilter(error: Error) | AtFetch(error: Error)
  datatype Env = Env(first: Snapshot, best: nat -> Snapshot, arrivals: nat -> seq<Input>, fault: nat -> Fault)
  /** A batch is done with the blocks below a height, or stopped at one and dropped the requests it had dequeued. */
  datatype Outcome = Done(to: nat) | Stopped(error: Error, dropped: seq<Request>)

  datatype Phase = Idle | Scanning | Halted

  // ------------------------------------------------------------------ where requests are

  /** Snapshots are of heights that exist. */
  ghost predicate EnvOk(length: nat, env: Env) {
    (env.first.Best? ==> env.first.height < length) && forall e :: env.best(e).Best? ==> env.best(e).height < length
  }

  /** The requests that arriving inputs become, numbered from id on. */
  ghost function Issued(inputs: seq<Input>, id: nat): set<Request> {
    if inputs == [] then {}
    else
      var last := |inputs| - 1;
      var input := inputs[last];
      Issued(inputs[..last], id) + {Request(id + last, input.op, input.script, input.birth)}
  }

  /** A request is issued with the birth of its input, and every input issues one. */
  lemma {:induction false} IssuedBirths(inputs: seq<Input>, id: nat, height: nat)
    ensures (exists r :: r in Issued(inputs, id) && r.birth == height) <==>
      exists i :: 0 <= i < |inputs| && inputs[i].birth == height
  {
    if inputs != [] {
      var last := |inputs| - 1;
      var before := inputs[..last];
      IssuedBirths(before, id, height);
      var r := Request(id + last, inputs[last].op, inputs[last].script, inputs[last].birth);
      assert r in Issued(inputs, id);
      if i :| 0 <= i < |inputs| && inputs[i].birth == height {
        assert i < last ==> before[i].birth == height;
      }
      if x :| x in Issued(before, id) && x.birth == height { assert x in Issued(inputs, id); }
      if i :| 0 <= i < |before| && before[i].birth == height { assert inputs[i].birth == height; }
    }
  }

  /** Input k becomes the request numbered id + k. */
  lemma {:induction false} IssuedHas(inputs: seq<Input>, id: nat, k: nat)
    requires k < |inputs|
    ensures Request(id + k, inputs[k].op, inputs[k].script, inputs[k].birth) in Issued(inputs, id)
  {
    var last := |inputs| - 1;
    if k < last { IssuedHas(inputs[..last], id, k); }
  }

  /** The inputs of turn i are known requests, numbered from ids[i] on and after those of the turns
      before. */
  ghost predicate TurnIssued(turns: seq<(seq<Input>, Env)>, ids: seq<nat>, i: nat, from: nat, known: set<Request>)
    requires i < |ids| <= |turns|
  {
    && Issued(turns[i].0, ids[i]) <= known
    && (if i == 0 then from else ids[i - 1] + |turns[i - 1].0|) <= ids[i]
  }

  /** The same for every turn so far, with the numbers below upTo used. */
  ghost predicate AllIssued(
      turns: seq<(seq<Input>, Env)>, ids: seq<nat>, from: nat, upTo: nat, known: set<Request>)
  {
    && |ids| <= |turns|
    && (forall i :: 0 <= i < |ids| ==> TurnIssued(turns, ids, i, from, known))
    && (if ids == [] then from else ids[|ids| - 1] + |turns[|ids| - 1].0|) <= upTo
  }

  lemma {:induction false} AllIssuedMore(
      turns: seq<(seq<Input>, Env)>, ids: seq<nat>, from: nat, id: nat, known: set<Request>, upTo: nat,
      known': set<Request>)
    requires AllIssued(turns, ids, from, id, known) && |ids| < |turns| && known <= known'
    requires Issued(turns[|ids|].0, id) <= known' && id + |turns[|ids|].0| <= upTo
    ensures AllIssued(turns, ids + [id], from, upTo, known')
  {
    var now := ids + [id];
    forall i | 0 <= i < |now| ensures TurnIssued(turns, now, i, from, known') {
      if i < |ids| { assert TurnIssued(turns, ids, i, from, known); }
    }
  }

  /** Some request in the queue or among the arriving inputs is born at the height. */
  ghost predicate BornAt(pq: set<Request>, inputs: seq<Input>, height: nat) {
    (exists r :: r in pq && r.birth == height) || (exists i :: 0 <= i < |inputs| && inputs[i].birth == height)
  }

  /** No fault falls between dequeuing requests and processing their block. */
  ghost predicate NoFetchFault(env: Env) {
    forall h :: !env.fault(h).AtFetch?
  }

  /** No fault and no failing snapshot. */
  ghost predicate Undisturbed(env: Env) {
    env.first.Best? && (forall h :: env.fault(h).NoFault?) && forall h :: env.best(h).Best?
  }

  /** A batch ends above the best height at its start and above the last one that it reads. */
  ghost predicate EndOk(env: Env, to: nat) {
    env.first.Best? && env.first.height < to && env.best(to - 1).Best? && env.best(to - 1).height < to
  }

  /** In an undisturbed batch the requests born at or below the best height at its start are
      answered, unless they were lost before. */
  ghost predicate Served(reqs: set<Request>, env: Env, answered: map<Request, Answer>, lost: set<Request>) {
    Undisturbed(env) ==> forall r :: r in reqs && r.birth <= env.first.height ==> r in answered || r in lost
  }

  /** The same for the inputs of turn j and the batch of turn i. */
  ghost predicate TurnServed(
      turns: seq<(seq<Input>, Env)>, ids: seq<nat>, j: nat, i: nat, answered: map<Request, Answer>,
      lost: set<Request>)
    requires j < |ids| <= |turns| && i < |turns|
  {
    Served(Issued(turns[j].0, ids[j]), turns[i].1, answered, lost)
  }

  /** Every batch so far served what was known at first and the inputs of its turn and those before. */
  ghost predicate AllServed(
      turns: seq<(seq<Input>, Env)>, ids: seq<nat>, first: set<Request>, answered: map<Request, Answer>,
      lost: set<Request>)
  {
    && |ids| <= |turns|
    && (forall i :: 0 <= i < |ids| ==> Served(first, turns[i].1, answered, lost))
    && forall j, i :: 0 <= j <= i < |ids| ==> TurnServed(turns, ids, j, i, answered, lost)
  }

  lemma {:induction false} AllServedMore(
      turns: seq<(seq<Input>, Env)>, ids: seq<nat>, id: nat, first: set<Request>, from: nat, known: set<Request>,
      answered: map<Request, Answer>, lost: set<Request>, answered': map<Request, Answer>, lost': set<Request>)
    requires AllServed(turns, ids, first, answered, lost) && |ids| < |turns| && first <= known
    requires AllIssued(turns, ids, from, id, known) && answered.Keys <= answered'.Keys && lost <= lost'
    requires Served(known + Issued(turns[|ids|].0, id), turns[|ids|].1, answered', lost')
    ensures AllServed(turns, ids + [id], first, answered', lost')
  {
    var now, n := ids + [id], |ids|;
    forall i | 0 <= i < |now| ensures Served(first, turns[i].1, answered', lost') {
      if i < n { assert Served(first, turns[i].1, answered, lost); }
    }
    forall j, i | 0 <= j <= i < |now| ensures TurnServed(turns, now, j, i, answered', lost') {
      if i < n {
        assert TurnServed(turns, ids, j, i, answered, lost);
      } else if j < n {
        assert TurnIssued(turns, ids, j, from, known);
      }
    }
  }

  /** A fault lost exactly the requests that were dequeued. */
  ghost predicate LostBy(before: set<Request>, dropped: seq<Request>, lost: set<Request>) {
    lost == before + (set r | r in dropped) && (lost == before <==> dropped == [])
  }

  /** What the batch answered before it stopped: true first spends; the rest got the error. */
  ghost predicate StoppedAnswers(chain: seq<Block>, err: Error, batch: map<Request, Answer>) {
    forall r :: r in batch ==> batch[r] == Failed(err) || SpentAt(chain, |chain|, r, batch[r])
  }

  /** The error of a stopped batch, the first spend, or the creation of the output in a block from the
      birth on, with no spend known when the batch was done. */
  ghost predicate TrueAnswer(chain: seq<Block>, r: Request, a: Answer) {
    a.Failed? || SpentAt(chain, |chain|, r, a) || exists b: nat, to: nat :: UnspentUpTo(chain, r, a, b, to)
  }

  ghost predicate UnspentUpTo(chain: seq<Block>, r: Request, a: Answer, b: nat, to: nat) {
    && r.birth <= b < to <= |chain| && FirstSpend(chain, r.birth, to, r.op).None?
    && a == AnswerOf(CreatedIn(chain[b], b, r.op))
  }

  lemma {:induction false} BatchIsTrue(chain: seq<Block>, to: nat, batch: map<Request, Answer>)
    requires to <= |chain| && BatchAnswers(chain, to, batch)
    ensures forall r :: r in batch ==> TrueAnswer(chain, r, batch[r])
  {
    forall r | r in batch ensures TrueAnswer(chain, r, batch[r]) {
      assert BatchAnswer(chain, to, batch, r);
      if FirstSpend(chain, r.birth, to, r.op).Some? {
        SpentToEnd(chain, to, r, batch[r]);
      } else {
        assert Unspent(chain, to, batch, r.op, r);
        var b: nat :| LatestBirth(chain, to, batch, r.op, b) && batch[r] == AnswerOf(CreatedIn(chain[b], b, r.op));
        assert UnspentUpTo(chain, r, batch[r], b, to);
      }
    }
  }

  ghost function One(b: bool): int { if b then 1 else 0 }

  /** In how many places r is: heap, next batch, dequeued, waiting, answered, lost. */
  ghost function Places(
      r: Request, pq: set<Request>, next: seq<Request>, fetched: seq<Request>, m: map<OutPoint, seq<Request>>,
      d: map<Request, Answer>, answered: map<Request, Answer>, lost: set<Request>): int
  {
    One(r in pq) + One(r in next) + One(r in fetched) + One(Waits(m, r)) + One(r in d) + One(r in answered) +
    One(r in lost)
  }

  /** Every request ever enqueued is in exactly one place, once, and nothing else is anywhere. */
  ghost predicate Conserved(
      known: set<Request>, pq: set<Request>, next: seq<Request>, fetched: seq<Request>, m: map<OutPoint, seq<Request>>,
      d: map<Request, Answer>, answered: map<Request, Answer>, lost: set<Request>)
  {
    && NoRepeat(next) && NoRepeat(fetched)
    && forall r :: Places(r, pq, next, fetched, m, d, answered, lost) == One(r in known)
  }

  /** A request due from the start of the batch on: taken in when its height was passed, else still to come. */
  ghost predicate DueAt(
      r: Request, h: nat, pq: set<Request>, fetched: seq<Request>, m: map<OutPoint, seq<Request>>,
      d: map<Request, Answer>)
  {
    if r.birth < h then Waits(m, r) || r in d else r in pq || r in fetched
  }

  ghost predicate DueOk(
      due: set<Request>, h: nat, pq: set<Request>, fetched: seq<Request>, m: map<OutPoint, seq<Request>>,
      d: map<Request, Answer>)
  {
    forall r :: r in due ==> DueAt(r, h, pq, fetched, m, d)
  }

  lemma {:induction false} DueDequeued(
      due: set<Request>, h: nat, before: set<Request>, pq: set<Request>, fetched: seq<Request>,
      m: map<OutPoint, seq<Request>>, d: map<Request, Answer>)
    requires DueOk(due, h, before, [], m, d)
    requires forall r :: r in before && r.birth >= h ==> r in pq || r in fetched
    ensures DueOk(due, h, pq, fetched, m, d)
  {
    forall r | r in due ensures DueAt(r, h, pq, fetched, m, d) {
      assert DueAt(r, h, before, [], m, d);
    }
  }

  /** Reading the block of height h takes in the requests dequeued for it. */
  lemma {:induction false} DueRead(
      due: set<Request>, h: nat, pq: set<Request>, fetched: seq<Request>, m: map<OutPoint, seq<Request>>,
      d: map<Request, Answer>, spends: map<OutPoint, Answer>, m': map<OutPoint, seq<Request>>, d': map<Request, Answer>)
    requires DueOk(due, h, pq, fetched, m, d) && (forall r :: r in pq ==> h < r.birth)
    requires (forall r :: r in fetched ==> r.birth == h)
    requires ListsOk(m, d) && NoRepeat(fetched) && (forall r :: r in fetched ==> r !in d && !Waits(m, r))
    requires Handled(Added(m, fetched), d, spends, m', d')
    ensures DueOk(due, h + 1, pq, [], m', d')
  {
    AddedLists(m, d, fetched);
    forall r | r in due ensures DueAt(r, h + 1, pq, [], m', d') {
      assert DueAt(r, h, pq, fetched, m, d);
      Moves(Added(m, fetched), d, spends, m', d', r);
    }
  }

  lemma {:induction false} NoRepeatMore(s: seq<Request>, r: Request)
    requires NoRepeat(s) && r !in s
    ensures NoRepeat(s + [r]) && forall x :: x in s + [r] <==> x in s || x == r
  {
  }

  lemma {:induction false} EnqueueConserved(
      known: set<Request>, pq: set<Request>, next: seq<Request>, fetched: seq<Request>, m: map<OutPoint, seq<Request>>,
      d: map<Request, Answer>, answered: map<Request, Answer>, lost: set<Request>, r: Request)
    requires Conserved(known, pq, next, fetched, m, d, answered, lost) && r !in known
    ensures Conserved(known + {r}, pq + {r}, next, fetched, m, d, answered, lost)
  {
    forall x ensures Places(x, pq + {r}, next, fetched, m, d, answered, lost) == One(x in known + {r}) {
      assert Places(x, pq, next, fetched, m, d, answered, lost) == One(x in known);
    }
  }

  lemma {:induction false} SkipConserved(
      known: set<Request>, pq: set<Request>, next: seq<Request>, fetched: seq<Request>, m: map<OutPoint, seq<Request>>,
      d: map<Request, Answer>, answered: map<Request, Answer>, lost: set<Request>, r: Request)
    requires Conserved(known, pq, next, fetched, m, d, answered, lost) && r in pq
    ensures Conserved(known, pq - {r}, next + [r], fetched, m, d, answered, lost)
  {
    assert Places(r, pq, next, fetched, m, d, answered, lost) == One(r in known);
    NoRepeatMore(next, r);
    forall x ensures Places(x, pq - {r}, next + [r], fetched, m, d, answered, lost) == One(x in known) {
      assert Places(x, pq, next, fetched, m, d, answered, lost) == One(x in known);
    }
  }

  lemma {:induction false} FetchConserved(
      known: set<Request>, pq: set<Request>, next: seq<Request>, fetched: seq<Request>, m: map<OutPoint, seq<Request>>,
      d: map<Request, Answer>, answered: map<Request, Answer>, lost: set<Request>, r: Request)
    requires Conserved(known, pq, next, fetched, m, d, answered, lost) && r in pq
    ensures Conserved(known, pq - {r}, next, fetched + [r], m, d, answered, lost)
  {
    assert Places(r, pq, next, fetched, m, d, answered, lost) == One(r in known);
    NoRepeatMore(fetched, r);
    forall x ensures Places(x, pq - {r}, next, fetched + [r], m, d, answered, lost) == One(x in known) {
      assert Places(x, pq, next, fetched, m, d, answered, lost) == One(x in known);
    }
  }

  lemma {:induction false} RequeueConserved(
      known: set<Request>, pq: set<Request>, next: seq<Request>, fetched: seq<Request>, m: map<OutPoint, seq<Request>>,
      d: map<Request, Answer>, answered: map<Request, Answer>, lost: set<Request>)
    requires Conserved(known, pq, next, fetched, m, d, answered, lost)
    ensures Conserved(known, pq + set r | r in next, [], fetched, m, d, answered, lost)
  {
    forall x ensures Places(x, pq + set r | r in next, [], fetched, m, d, answered, lost) == One(x in known) {
      assert Places(x, pq, next, fetched, m, d, answered, lost) == One(x in known);
    }
  }

  /** The dequeued requests of a height are new to the reporter. */
  lemma {:induction false} FetchedAreNew(
      known: set<Request>, pq: set<Request>, next: seq<Request>, fetched: seq<Request>, m: map<OutPoint, seq<Request>>,
      d: map<Request, Answer>, answered: map<Request, Answer>, lost: set<Request>)
    requires Conserved(known, pq, next, fetched, m, d, answered, lost)
    ensures forall r :: r in fetched ==> r !in d && !Waits(m, r)
    ensures forall r :: Waits(m, r) ==> r in known
    ensures forall r :: r in fetched ==> r in known
    ensures forall r :: r in d ==> r in known
  {
    forall r
      ensures r in fetched ==> r !in d && !Waits(m, r) && r in known
      ensures (Waits(m, r) ==> r in known) && (r in d ==> r in known)
    {
      assert Places(r, pq, next, fetched, m, d, answered, lost) == One(r in known);
    }
  }

  /** A block moves the dequeued requests to the waiting ones, and waiting ones to the answered. */
  lemma {:induction false} ProcessConserved(
      known: set<Request>, pq: set<Request>, next: seq<Request>, fetched: seq<Request>, m: map<OutPoint, seq<Request>>,
      d: map<Request, Answer>, answered: map<Request, Answer>, lost: set<Request>, spends: map<OutPoint, Answer>,
      m': map<OutPoint, seq<Request>>, d': map<Request, Answer>)
    requires Conserved(known, pq, next, fetched, m, d, answered, lost) && ListsOk(m, d)
    requires Handled(Added(m, fetched), d, spends, m', d')
    ensures Conserved(known, pq, next, [], m', d', answered, lost)
  {
    FetchedAreNew(known, pq, next, fetched, m, d, answered, lost);
    AddedLists(m, d, fetched);
    forall r ensures Places(r, pq, next, [], m', d', answered, lost) == One(r in known) {
      assert Places(r, pq, next, fetched, m, d, answered, lost) == One(r in known);
      Moves(Added(m, fetched), d, spends, m', d', r);
    }
  }

  lemma {:induction false} Moves(
      m0: map<OutPoint, seq<Request>>, d0: map<Request, Answer>, sent: map<OutPoint, Answer>,
      m: map<OutPoint, seq<Request>>, d: map<Request, Answer>, r: Request)
    requires Handled(m0, d0, sent, m, d)
    ensures r in d <==> r in d0 || (Waits(m0, r) && r.op in sent)
    ensures Waits(m, r) <==> Waits(m0, r) && r.op !in sent
  {
  }

  /** The end of a batch answers all that wait. */
  lemma {:induction false} EndConserved(
      known: set<Request>, pq: set<Request>, next: seq<Request>, fetched: seq<Request>, m: map<OutPoint, seq<Request>>,
      d: map<Request, Answer>, answered: map<Request, Answer>, lost: set<Request>, sent: map<OutPoint, Answer>,
      d': map<Request, Answer>)
    requires Conserved(known, pq, next, fetched, m, d, answered, lost) && ListsOk(m, d)
    requires Handled(m, d, sent, map[], d')
    ensures Conserved(known, pq, next, fetched, map[], d', answered, lost)
  {
    forall r ensures Places(r, pq, next, fetched, map[], d', answered, lost) == One(r in known) {
      assert Places(r, pq, next, fetched, m, d, answered, lost) == One(r in known);
      Moves(m, d, sent, map[], d', r);
      assert Waits(m, r) ==> ListOk(r.op, m[r.op], d);
    }
  }

  /** The deliveries of a finished batch join the answers of the earlier ones, none of them anew. */
  lemma {:induction false} JoinAnswers(
      known: set<Request>, pq: set<Request>, next: seq<Request>, fetched: seq<Request>, d: map<Request, Answer>,
      answered: map<Request, Answer>, lost: set<Request>)
    requires Conserved(known, pq, next, fetched, map[], d, answered, lost)
    ensures Conserved(known, pq, next, fetched, map[], map[], answered + d, lost) && d.Keys !! answered.Keys
  {
    forall r
      ensures Places(r, pq, next, fetched, map[], map[], answered + d, lost) == One(r in known)
      ensures !(r in d && r in answered)
    {
      assert Places(r, pq, next, fetched, map[], d, answered, lost) == One(r in known);
    }
  }

  /** A fault between dequeuing and processing loses exactly the dequeued requests. */
  lemma {:induction false} LoseConserved(
      known: set<Request>, pq: set<Request>, next: seq<Request>, fetched: seq<Request>, m: map<OutPoint, seq<Request>>,
      d: map<Request, Answer>, answered: map<Request, Answer>, lost: set<Request>)
    requires Conserved(known, pq, next, fetched, m, d, answered, lost)
    ensures Conserved(known, pq, next, [], m, d, answered, lost + set r | r in fetched)
    ensures lost + (set r | r in fetched) == lost <==> fetched == []
  {
    forall x ensures Places(x, pq, next, [], m, d, answered, lost + set r | r in fetched) == One(x in known) {
      assert Places(x, pq, next, fetched, m, d, answered, lost) == One(x in known);
    }
    if fetched != [] {
      var r := fetched[0];
      assert Places(r, pq, next, fetched, m, d, answered, lost) == One(r in known);
      assert r in fetched && r !in lost && r in set x | x in fetched;
    }
  }

  // ------------------------------------------------------------------ the scanner

  class Scanner {
    const chain: seq<Block>
    const matches: (seq<int>, nat) -> bool
    ghost const scriptOf: OutPoint -> int
    var pq: set<Request>
    var nextBatch: seq<Request>
    var answered: map<Request, Answer>
    var nextId: nat
    /** All requests ever enqueued, and those dropped by a fault. */
    ghost var known: set<Request>
    ghost var lost: set<Request>
    /** The requests queued when the current batch began, born at its first height or above. */
    ghost var due: set<Request>

    constructor (chain: seq<Block>, matches: (seq<int>, nat) -> bool, ghost scriptOf: OutPoint -> int)
      ensures Valid() && known == {} && this.chain == chain && this.matches == matches && this.scriptOf == scriptOf
    {
      this.chain, this.matches, this.scriptOf := chain, matches, scriptOf;
      pq, nextBatch, answered, nextId, known, lost, due := {}, [], map[], 0, {}, {}, {};
    }

    ghost predicate Holds(fetched: seq<Request>, m: map<OutPoint, seq<Request>>, d: map<Request, Answer>)
      reads this
    {
      && (forall r :: r in known ==> r.id < nextId)
      && Conserved(known, pq, nextBatch, fetched, m, d, answered, lost)
    }

    /** Between batches. */
    ghost predicate Valid()
      reads this
    {
      Holds([], map[], map[])
    }

    /** Filters have no false negatives and requests name the true scripts. */
    ghost predicate Trusted()
      reads this`known
    {
      NoFalseNegatives(chain, scriptOf, matches) && TrueScripts(scriptOf, known)
    }

    /** Creates a request and queues it; it may arrive while a batch runs. */
    method Enqueue(input: Input, ghost m: map<OutPoint, seq<Request>>, ghost d: map<Request, Answer>)
      returns (r: Request)
      requires Holds([], m, d)
      modifies this`pq, this`nextId, this`known
      ensures Holds([], m, d) && r !in old(known) && known == old(known) + {r} && pq == old(pq) + {r}
      ensures r == Request(old(nextId), input.op, input.script, input.birth) && nextId == old(nextId) + 1
    {
      r := Request(nextId, input.op, input.script, input.birth);
      EnqueueConserved(known, pq, nextBatch, [], m, d, answered, lost, r);
      nextId, pq, known := nextId + 1, pq + {r}, known + {r};
    }

    method EnqueueAll(inputs: seq<Input>, ghost m: map<OutPoint, seq<Request>>, ghost d: map<Request, Answer>)
      requires Holds([], m, d)
      modifies this`pq, this`nextId, this`known
      ensures Holds([], m, d) && nextId == old(nextId) + |inputs|
      ensures known == old(known) + Issued(inputs, old(nextId)) && pq == old(pq) + Issued(inputs, old(nextId))
    {
      for i := 0 to |inputs|
        invariant Holds([], m, d) && nextId == old(nextId) + i
        invariant known == old(known) + Issued(inputs[..i], old(nextId))
        invariant pq == old(pq) + Issued(inputs[..i], old(nextId))
      {
        assert inputs[..i + 1][..i] == inputs[..i];
        var r := Enqueue(inputs[i], m, d);
      }
      assert inputs[..|inputs|] == inputs;
    }

    /** An element of least birth. */
    method Peek() returns (r: Request)
      requires pq != {}
      ensures r in pq && forall x :: x in pq ==> r.birth <= x.birth
    {
      r :| r in pq;
      var left := pq - {r};
      while left != {}
        invariant left <= pq && r in pq && forall x :: x in pq && x !in left ==> r.birth <= x.birth
        decreases left
      {
        var x :| x in left;
        left := left - {x};
        if x.birth < r.birth {
          r := x;
        }
      }
    }

    /** Puts the requests born below a height aside for the next batch and takes out those born at it. */
    method DequeueAtHeight(height: nat, ghost m: map<OutPoint, seq<Request>>, ghost d: map<Request, Answer>)
      returns (requests: seq<Request>)
      requires Holds([], m, d)
      modifies this`pq, this`nextBatch
      ensures Holds(requests, m, d)
      ensures forall r :: r in requests <==> r in old(pq) && r.birth == height
      ensures forall r :: r in nextBatch <==> r in old(nextBatch) || (r in old(pq) && r.birth < height)
      ensures forall r :: r in pq <==> r in old(pq) && r.birth > height
    {
      SetAside(height, m, d);
      requests := [];
      ghost var before, aside := pq, nextBatch;
      while pq != {}
        invariant Holds(requests, m, d) && nextBatch == aside
        invariant forall r :: r in requests <==> r in before && r !in pq
        invariant pq <= before && forall r :: r in requests ==> r.birth == height
        decreases pq
      {
        var r := Peek();
        if r.birth != height {
          break;
        }
        FetchConserved(known, pq, nextBatch, requests, m, d, answered, lost, r);
        pq, requests := pq - {r}, requests + [r];
      }
    }

    method SetAside(height: nat, ghost m: map<OutPoint, seq<Request>>, ghost d: map<Request, Answer>)
      requires Holds([], m, d)
      modifies this`pq, this`nextBatch
      ensures Holds([], m, d)
      ensures forall r :: r in nextBatch <==> r in old(nextBatch) || (r in old(pq) && r.birth < height)
      ensures forall r :: r in pq <==> r in old(pq) && r.birth >= height
    {
      while pq != {}
        invariant Holds([], m, d) && pq <= old(pq)
        invariant forall r :: r in nextBatch <==> r in old(nextBatch) || (r in old(pq) && r !in pq)
        invariant forall r :: r in old(pq) && r !in pq ==> r.birth < height
        decreases pq
      {
        var r := Peek();
        if r.birth >= height {
          break;
        }
        SkipConserved(known, pq, nextBatch, [], m, d, answered, lost, r);
        pq, nextBatch := pq - {r}, nextBatch + [r];
      }
    }

    /** A batch that has scanned the blocks below h and dequeued the given requests for h. */
    ghost predicate BatchOk(rep: Reporter, h: nat, fetched: seq<Request>)
      reads this, rep
    {
      && h <= |chain| && rep.Valid() && Holds(fetched, rep.requests, rep.delivered)
      && (forall r :: r in fetched ==> r.birth == h) && DueOk(due, h, pq, fetched, rep.requests, rep.delivered)
      && (Trusted() ==> Scanned(chain, h, h, rep.requests, rep.initialTxns) && SpentOk(chain, h, rep.delivered))
    }

    ghost function BatchAt(rep: Reporter, h: nat, fetched: seq<Request>): Phase
      reads this, rep
    {
      if BatchOk(rep, h, fetched) then Scanning else Idle
    }

    /** A batch that was stopped when the blocks below h were scanned: nothing waits any more, and
        what was answered is a true spend or the error. */
    ghost predicate StoppedOk(rep: Reporter, h: nat, err: Error)
      reads this, rep
    {
      && h <= |chain| && rep.requests == map[] && Holds([], map[], rep.delivered)
      && (Trusted() ==> forall r :: r in rep.delivered ==>
            rep.delivered[r] == Failed(err) || SpentAt(chain, h, r, rep.delivered[r]))
    }

    /** Halted if the batch stopped at h with this outcome, the requests lost before it being given. */
    ghost function HaltAt(rep: Reporter, h: nat, outcome: Outcome, before: set<Request>): Phase
      reads this, rep
    {
      if outcome.Stopped? && StoppedOk(rep, h, outcome.error) && LostBy(before, outcome.dropped, lost) then Halted
      else Idle
    }

    /** Fails what waits. The requests dequeued for this height are answered by nobody. */
    method Halt(rep: Reporter, ghost h: nat, err: Error, fetched: seq<Request>) returns (outcome: Outcome)
      requires BatchAt(rep, h, fetched) == Scanning
      modifies rep, this`lost
      ensures HaltAt(rep, h, outcome, old(lost)) == Halted && outcome == Stopped(err, fetched)
    {
      ghost var m, d := rep.requests, rep.delivered;
      LoseConserved(known, pq, nextBatch, fetched, m, d, answered, lost);
      ghost var sent := rep.FailRemaining(err);
      lost := lost + set r | r in fetched;
      EndConserved(known, pq, nextBatch, [], m, d, answered, lost, sent, rep.delivered);
      outcome := Stopped(err, fetched);
    }

    /** One height of a batch: its outcome if the batch stops here. Requests are lost only by a
        fault after some were dequeued, and then these. */
    method ScanHeight(rep: Reporter, height: nat, env: Env, ghost next: nat) returns (stop: Option<Outcome>)
      requires height < |chain| && BatchAt(rep, height, []) == Scanning && next == height + 1
      modifies this`pq, this`nextBatch, this`nextId, this`known, this`lost, rep
      ensures old(known) <= known && old(nextId) <= nextId
      ensures stop.None? ==> BatchAt(rep, next, []) == Scanning && lost == old(lost)
      ensures stop.Some? ==> HaltAt(rep, height, stop.value, old(lost)) == Halted
      ensures known == old(known) + if env.fault(height).AtHash? then {} else Issued(env.arrivals(height), old(nextId))
      ensures lost != old(lost) <==> env.fault(height).AtFetch? && BornAt(old(pq), env.arrivals(height), height)
      ensures env.fault(height).NoFault? ==> stop.None?
    {
      var fault := env.fault(height);
      if fault.AtHash? {
        var outcome := Halt(rep, height, fault.error, []);
        return Some(outcome);
      }
      var newReqs := Admit(rep, height, env);
      stop := Read(rep, height, newReqs, fault, next);
    }

    /** Lets requests arrive and dequeues those for this height. */
    method Admit(rep: Reporter, height: nat, env: Env) returns (newReqs: seq<Request>)
      requires BatchAt(rep, height, []) == Scanning
      modifies this`pq, this`nextBatch, this`nextId, this`known
      ensures known == old(known) + Issued(env.arrivals(height), old(nextId)) && old(nextId) <= nextId
      ensures BatchAt(rep, height, newReqs) == Scanning && forall r :: r in pq ==> height < r.birth
      ensures newReqs != [] <==> BornAt(old(pq), env.arrivals(height), height)
    {
      IssuedBirths(env.arrivals(height), nextId, height);
      EnqueueAll(env.arrivals(height), rep.requests, rep.delivered);
      ghost var before := pq;
      newReqs := DequeueAtHeight(height, rep.requests, rep.delivered);
      DueDequeued(due, height, before, pq, newReqs, rep.requests, rep.delivered);
      assert newReqs != [] ==> newReqs[0] in newReqs;
    }

    /** Skips the block or reads it. */
    method Read(rep: Reporter, height: nat, newReqs: seq<Request>, fault: Fault, ghost next: nat)
      returns (stop: Option<Outcome>)
      requires height < |chain| && BatchAt(rep, height, newReqs) == Scanning && next == height + 1
      requires forall r :: r in pq ==> height < r.birth
      modifies this`lost, rep
      ensures stop.None? ==> BatchAt(rep, next, []) == Scanning && lost == old(lost)
      ensures stop.Some? ==> HaltAt(rep, height, stop.value, old(lost)) == Halted
      ensures lost != old(lost) <==> fault.AtFetch? && newReqs != []
      ensures fault.NoFault? ==> stop.None?
    {
      if newReqs == [] {
        if fault.AtFilter? {
          var outcome := Halt(rep, height, fault.error, newReqs);
          return Some(outcome);
        }
        if !matches(rep.filterEntries, height) {
          Skip(rep, height, next);
          return None;
        }
      }
      if fault.AtFetch? {
        var outcome := Halt(rep, height, fault.error, newReqs);
        return Some(outcome);
      }
      Process(rep, height, newReqs, next);
      return None;
    }

    /** A skipped block is as good as scanned. */
    lemma {:induction false} Skip(rep: Reporter, height: nat, next: nat)
      requires height < |chain| && BatchAt(rep, height, []) == Scanning && !matches(rep.filterEntries, height)
      requires next == height + 1
      requires forall r :: r in pq ==> height < r.birth
      ensures BatchAt(rep, next, []) == Scanning
    {
      forall r | r in due ensures DueAt(r, next, pq, [], rep.requests, rep.delivered) {
        assert DueAt(r, height, pq, [], rep.requests, rep.delivered);
      }
      FetchedAreNew(known, pq, nextBatch, [], rep.requests, rep.delivered, answered, lost);
      if Trusted() {
        SkipScanned(
          chain, height, rep.requests, rep.initialTxns, rep.delivered, rep.outpoints, rep.filterEntries, scriptOf,
          matches, known);
      }
    }

    method Process(rep: Reporter, height: nat, newReqs: seq<Request>, ghost next: nat)
      requires height < |chain| && BatchAt(rep, height, newReqs) == Scanning && next == height + 1
      requires forall r :: r in pq ==> height < r.birth
      modifies rep
      ensures BatchAt(rep, next, []) == Scanning
    {
      ghost var m, i, d := rep.requests, rep.initialTxns, rep.delivered;
      FetchedAreNew(known, pq, nextBatch, newReqs, m, d, answered, lost);
      ghost var spends := rep.ProcessBlock(chain[height], newReqs, height);
      ProcessConserved(known, pq, nextBatch, newReqs, m, d, answered, lost, spends, rep.requests, rep.delivered);
      DueRead(due, height, pq, newReqs, m, d, spends, rep.requests, rep.delivered);
      if Trusted() {
        JoinScanned(chain, height, m, i, newReqs);
        BlockScanned(
          chain, height, Added(m, newReqs), Initials(i, chain[height], height, newReqs), d, spends, rep.requests,
          rep.delivered);
      }
    }

    /** The end of a batch: what still waits is answered with the recorded reports. */
    method Finish(rep: Reporter, ghost to: nat) returns (ghost batch: map<Request, Answer>)
      requires BatchAt(rep, to, []) == Scanning
      modifies this`answered, rep
      ensures Valid() && batch.Keys !! old(answered).Keys && answered == old(answered) + batch
      ensures to <= |chain| && (Trusted() ==> BatchAnswers(chain, to, batch))
      ensures forall r :: r in due && r.birth < to ==> r in batch
    {
      ghost var m, i, d := rep.requests, rep.initialTxns, rep.delivered;
      ghost var sent := rep.NotifyUnspentAndUnfound();
      EndConserved(known, pq, nextBatch, [], m, d, answered, lost, sent, rep.delivered);
      JoinAnswers(known, pq, nextBatch, [], rep.delivered, answered, lost);
      if Trusted() {
        BatchEnds(chain, to, m, i, d, sent, rep.delivered);
      }
      batch := rep.delivered;
      forall r | r in due && r.birth < to ensures r in batch {
        assert DueAt(r, to, pq, [], m, d);
      }
      answered := answered + rep.delivered;
    }

    /** The end of a stopped batch. */
    method Close(rep: Reporter, ghost h: nat, outcome: Outcome, ghost before: set<Request>)
      returns (ghost batch: map<Request, Answer>)
      requires HaltAt(rep, h, outcome, before) == Halted
      modifies this`answered
      ensures Valid() && batch.Keys !! old(answered).Keys && answered == old(answered) + batch
      ensures outcome.Stopped? && LostBy(before, outcome.dropped, lost)
      ensures (Trusted() ==> StoppedAnswers(chain, outcome.error, batch))
    {
      JoinAnswers(known, pq, nextBatch, [], rep.delivered, answered, lost);
      batch := rep.delivered;
      if Trusted() {
        forall r | r in batch ensures batch[r] == Failed(outcome.error) || SpentAt(chain, |chain|, r, batch[r]) {
          if batch[r] != Failed(outcome.error) { SpentToEnd(chain, h, r, batch[r]); }
        }
      }
      answered := answered + rep.delivered;
    }

    /** Runs one batch from a height, following the best height as it grows. A batch that is done
        answers as BatchAnswer says and loses nothing; a stopped one answers true spends or the
        error, and loses exactly the requests it dequeued last. */
    method ScanFromHeight(init: nat, env: Env) returns (outcome: Outcome, ghost batch: map<Request, Answer>)
      requires Valid() && EnvOk(|chain|, env)
      modifies this
      ensures old(nextId) <= nextId
      ensures Valid() && old(known) <= known && batch.Keys !! old(answered).Keys && answered == old(answered) + batch
      ensures outcome.Done? ==>
        outcome.to <= |chain| && lost == old(lost) && (Trusted() ==> BatchAnswers(chain, outcome.to, batch))
      ensures outcome.Done? ==> forall r :: r in old(pq) && init <= r.birth < outcome.to ==> r in batch
      ensures outcome.Done? ==> EndOk(env, outcome.to)
      ensures Undisturbed(env) ==> outcome.Done?
      ensures outcome.Stopped? ==>
        LostBy(old(lost), outcome.dropped, lost) && (Trusted() ==> StoppedAnswers(chain, outcome.error, batch))
      ensures NoFetchFault(env) ==> lost == old(lost)
    {
      batch := map[];
      if env.first.NoSnapshot? {
        return Stopped(env.first.error, []), batch;
      }
      var rep := new Reporter();
      due := set r | r in pq && init <= r.birth;
      ghost var at;
      outcome, at := ScanAll(rep, init, env.first.height, env);
      if outcome.Done? {
        batch := Finish(rep, outcome.to);
      } else {
        batch := Close(rep, at, outcome, old(lost));
      }
    }

    method ScanAll(rep: Reporter, init: nat, first: nat, env: Env) returns (outcome: Outcome, ghost at: nat)
      requires EnvOk(|chain|, env) && first < |chain| && Valid() && env.first == Best(first)
      requires rep.Valid() && rep.requests == map[] && rep.delivered == map[] && due <= pq
      requires forall r :: r in due ==> init <= r.birth
      modifies this`pq, this`nextBatch, this`nextId, this`known, this`lost, rep
      ensures old(known) <= known && old(nextId) <= nextId
      ensures outcome.Done? ==> lost == old(lost) && BatchAt(rep, outcome.to, []) == Scanning && EndOk(env, outcome.to)
      ensures Undisturbed(env) ==> outcome.Done?
      ensures outcome.Stopped? ==> HaltAt(rep, at, outcome, old(lost)) == Halted
      ensures NoFetchFault(env) ==> lost == old(lost)
    {
      var to: nat := first + 1;
      var start: nat := if init < to then init else to;
      assert forall r :: r in due ==> DueAt(r, start, pq, [], map[], map[]);
      while true
        invariant first < to <= |chain| && start <= to && BatchAt(rep, start, []) == Scanning
        invariant old(known) <= known && lost == old(lost) && old(nextId) <= nextId
        decreases |chain| - to
      {
        var stop;
        stop, at := ScanRange(rep, start, to, env);
        if stop.Some? {
          return stop.value, at;
        }
        var current := env.best(to - 1);
        if current.NoSnapshot? {
          outcome := Halt(rep, to, current.error, []);
          return outcome, to;
        }
        if current.height < to {
          return Done(to), to;
        }
        start, to := to, current.height + 1;
      }
    }

    /** Scans the heights from start on and below to. */
    method ScanRange(rep: Reporter, start: nat, to: nat, env: Env) returns (stop: Option<Outcome>, ghost at: nat)
      requires start <= to <= |chain| && BatchAt(rep, start, []) == Scanning
      modifies this`pq, this`nextBatch, this`nextId, this`known, this`lost, rep
      ensures old(known) <= known && old(nextId) <= nextId
      ensures stop.None? ==> BatchAt(rep, to, []) == Scanning && lost == old(lost)
      ensures stop.Some? ==> HaltAt(rep, at, stop.value, old(lost)) == Halted
      ensures NoFetchFault(env) ==> lost == old(lost)
      ensures Undisturbed(env) ==> stop.None?
    {
      var height: nat := start;
      stop, at := None, start;
      while height != to
        invariant height <= to && BatchAt(rep, height, []) == Scanning && stop.None? && old(known) <= known
        invariant lost == old(lost) && old(nextId) <= nextId
        decreases if height <= to then to - height else 0
      {
        var above: nat := height + 1;
        stop := ScanHeight(rep, height, env, above);
        if stop.Some? {
          at := height;
          return;
        }
        height := above;
      }
    }

    /** Runs batch after batch: what was put aside is queued again, and a batch starts at the least
        birth height. No answer once given changes. Every input of turn i becomes a known request of
        its own, numbered from ids[i] on, and is answered, truly, by the next undisturbed batch that
        reaches its birth. */
    method BatchManager(turns: seq<(seq<Input>, Env)>) returns (ghost ids: seq<nat>)
      requires Valid()
      requires forall t :: t in turns ==> EnvOk(|chain|, t.1)
      modifies this
      ensures Valid() && old(known) <= known && old(lost) <= lost
      ensures (forall t :: t in turns ==> NoFetchFault(t.1)) ==> lost == old(lost)
      ensures forall r :: r in old(answered) ==> r in answered && answered[r] == old(answered)[r]
      ensures |ids| == |turns| && AllIssued(turns, ids, old(nextId), nextId, known)
      ensures AllServed(turns, ids, old(known), answered, lost)
      ensures Trusted() ==> AllTrue(old(answered))
    {
      ids := [];
      for i := 0 to |turns|
        invariant Valid() && old(known) <= known && old(lost) <= lost
        invariant (forall t :: t in turns ==> NoFetchFault(t.1)) ==> lost == old(lost)
        invariant forall r :: r in old(answered) ==> r in answered && answered[r] == old(answered)[r]
        invariant |ids| == i && AllIssued(turns, ids, old(nextId), nextId, known)
        invariant AllServed(turns, ids, old(known), answered, lost)
        invariant Trusted() ==> AllTrue(old(answered))
      {
        ghost var was, from, told, gone := known, nextId, answered, lost;
        Turn(turns[i].0, turns[i].1);
        AllServedMore(turns, ids, from, old(known), old(nextId), was, told, gone, answered, lost);
        AllIssuedMore(turns, ids, old(nextId), from, was, nextId, known);
        ids := ids + [from];
      }
    }

    /** Every answer beyond some is true. */
    ghost predicate AllTrue(before: map<Request, Answer>)
      reads this`answered
    {
      forall r :: r in answered && r !in before ==> TrueAnswer(chain, r, answered[r])
    }

    /** One batch: what was put aside and what arrived is queued, and scanned from the least birth on. An
        undisturbed batch answers all of it that is born at or below the best height at its start. */
    method Turn(inputs: seq<Input>, env: Env)
      requires Valid() && EnvOk(|chain|, env)
      modifies this
      ensures Valid() && old(known) <= known && old(lost) <= lost
      ensures NoFetchFault(env) ==> lost == old(lost)
      ensures forall r :: r in old(answered) ==> r in answered && answered[r] == old(answered)[r]
      ensures Issued(inputs, old(nextId)) <= known && old(nextId) + |inputs| <= nextId
      ensures Undisturbed(env) ==>
        forall r | r in old(pq) || r in old(nextBatch) || r in Issued(inputs, old(nextId)) ::
          r.birth <= env.first.height ==> r in answered
      ensures Served(old(known) + Issued(inputs, old(nextId)), env, answered, lost)
      ensures Trusted() ==> AllTrue(old(answered))
    {
      Requeue();
      EnqueueAll(inputs, map[], map[]);
      if pq != {} {
        var req := Peek();
        var outcome; ghost var batch;
        outcome, batch := ScanFromHeight(req.birth, env);
        if Trusted() && outcome.Done? { BatchIsTrue(chain, outcome.to, batch); }
      }
    }

    method Requeue()
      requires Valid()
      modifies this`pq, this`nextBatch
      ensures Valid() && nextBatch == [] && pq == old(pq) + set r | r in old(nextBatch)
    {
      RequeueConserved(known, pq, nextBatch, [], map[], map[], answered, lost);
      pq, nextBatch := pq + (set r | r in nextBatch), [];
    }
  }
}
