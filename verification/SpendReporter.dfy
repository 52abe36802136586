/**
 * The reporter of one batch of UTXO requests (spv/batch_spend_reporter.go). Three maps keyed by
 * outpoint hold the waiting requests, the report for an output that stays unspent, and the
 * script to watch for; a list of scripts is matched against block filters.
 */
module SpendReporter {
  import opened Chain

  datatype Tx = Tx(txid: int, ins: seq<OutPoint>, outs: seq<int>)
  datatype Block = Block(hash: int, txs: seq<Tx>)
  datatype Request = Request(id: nat, op: OutPoint, script: int, birth: nat)
  datatype Report = Spend(tx: Tx, input: nat, height: nat) | Created(output: int, hash: int, height: nat, index: nat)
  datatype Error = ShuttingDown | Lookup(code: int)
  /** What a request is answered with: a report, a nil report, or an error. */
  datatype Answer = Found(report: Report) | NotFound | Failed(error: Error)

  // ------------------------------------------------------------------ the naive reading of a block

  /** The first of the first k inputs of tx that spends op. */
  function SpendInTx(tx: Tx, k: nat, height: nat, op: OutPoint): Option<Report>
    requires k <= |tx.ins|
  {
    if k == 0 then None
    else
      var earlier := SpendInTx(tx, k - 1, height, op);
      if earlier.Some? then earlier
      else if tx.ins[k - 1] == op then Some(Spend(tx, k - 1, height)) else None
  }

  /** The first spend of op in the first n transactions. */
  function SpendIn(txs: seq<Tx>, n: nat, height: nat, op: OutPoint): Option<Report>
    requires n <= |txs|
  {
    if n == 0 then None
    else
      var earlier := SpendIn(txs, n - 1, height, op);
      if earlier.Some? then earlier else SpendInTx(txs[n - 1], |txs[n - 1].ins|, height, op)
  }

  /** Index of the first of the first n transactions with the given id. */
  function TxIndex(txs: seq<Tx>, n: nat, txid: int): (r: Option<nat>)
    requires n <= |txs|
    ensures r.Some? ==> r.value < n && txs[r.value].txid == txid
  {
    if n == 0 then None
    else
      var earlier := TxIndex(txs, n - 1, txid);
      if earlier.Some? then earlier else if txs[n - 1].txid == txid then Some(n - 1) else None
  }

  /** The report of transaction i of the block for the output op of it; none if it has no such output. */
  function OutputAt(block: Block, height: nat, i: nat, op: OutPoint): Option<Report>
    requires i < |block.txs|
  {
    if op.index < |block.txs[i].outs| then Some(Created(block.txs[i].outs[op.index], block.hash, height, i)) else None
  }

  /** The report of the creation of op in the block. */
  function CreatedIn(block: Block, height: nat, op: OutPoint): Option<Report> {
    var i := TxIndex(block.txs, |block.txs|, op.txid);
    if i.None? then None else OutputAt(block, height, i.value, op)
  }

  /** Transaction i of the block is the first with the id of op, and it has the output op. */
  ghost predicate CreatesAt(block: Block, i: nat, op: OutPoint) {
    && i < |block.txs| && block.txs[i].txid == op.txid && op.index < |block.txs[i].outs|
    && forall j :: 0 <= j < i ==> block.txs[j].txid != op.txid
  }

  /** The report is that of output op.index of the first transaction with the id, and none if no
      transaction has the id or the first one has no such output. */
  ghost predicate ReportsCreation(block: Block, height: nat, op: OutPoint, report: Option<Report>) {
    && (report.None? <==> forall i: nat :: !CreatesAt(block, i, op))
    && forall i: nat :: CreatesAt(block, i, op) ==>
         report == Some(Created(block.txs[i].outs[op.index], block.hash, height, i))
  }

  lemma {:induction false} TxIndexIsFirst(txs: seq<Tx>, n: nat, txid: int)
    requires n <= |txs|
    ensures var r := TxIndex(txs, n, txid);
      if r.None? then forall i :: 0 <= i < n ==> txs[i].txid != txid
      else forall i :: 0 <= i < r.value ==> txs[i].txid != txid
  {
    if 0 < n { TxIndexIsFirst(txs, n - 1, txid); }
  }

  lemma {:induction false} CreatedIs(block: Block, height: nat, op: OutPoint)
    ensures ReportsCreation(block, height, op, CreatedIn(block, height, op))
  {
    TxIndexIsFirst(block.txs, |block.txs|, op.txid);
    var r := TxIndex(block.txs, |block.txs|, op.txid);
    forall i: nat | CreatesAt(block, i, op) ensures r == Some(i) {}
    if r.Some? && CreatedIn(block, height, op).Some? { assert CreatesAt(block, r.value, op); }
  }

  // ------------------------------------------------------------------ the maps

  ghost predicate NoRepeat(s: seq<Request>) {
    forall i, j :: 0 <= i < j < |s| ==> s[i] != s[j]
  }

  function Listed(requests: map<OutPoint, seq<Request>>, op: OutPoint): seq<Request> {
    if op in requests then requests[op] else []
  }

  ghost predicate Waits(requests: map<OutPoint, seq<Request>>, r: Request) {
    r.op in requests && r in requests[r.op]
  }

  /** requests with the new ones appended to the lists of their outpoints. */
  function Added(requests: map<OutPoint, seq<Request>>, reqs: seq<Request>): map<OutPoint, seq<Request>> {
    if reqs == [] then requests
    else
      var before := Added(requests, reqs[..|reqs| - 1]);
      var r := reqs[|reqs| - 1];
      before[r.op := Listed(before, r.op) + [r]]
  }

  /** One list of waiting requests: for its own outpoint, none twice, none answered. */
  ghost predicate ListOk(op: OutPoint, list: seq<Request>, delivered: map<Request, Answer>) {
    && list != [] && NoRepeat(list)
    && forall r :: r in list ==> r.op == op && r !in delivered
  }

  ghost predicate ListsOk(requests: map<OutPoint, seq<Request>>, delivered: map<Request, Answer>) {
    forall op :: op in requests ==> ListOk(op, requests[op], delivered)
  }

  /** The cached script of an outpoint is that of its first waiting request. */
  ghost predicate Cached(requests: map<OutPoint, seq<Request>>, outpoints: map<OutPoint, int>) {
    && requests.Keys == outpoints.Keys
    && forall op :: op in requests ==> requests[op] != [] && outpoints[op] == requests[op][0].script
  }

  /** From lists m0 and answers d0, the outpoints of sent were removed and their requests answered. */
  ghost predicate Handled(
      m0: map<OutPoint, seq<Request>>, d0: map<Request, Answer>, sent: map<OutPoint, Answer>,
      m: map<OutPoint, seq<Request>>, d: map<Request, Answer>)
  {
    && sent.Keys <= m0.Keys && m == m0 - sent.Keys
    && (forall r :: r in d0 ==> r in d && d[r] == d0[r])
    && (forall r :: r in d && r !in d0 ==> Waits(m0, r) && r.op in sent && d[r] == sent[r.op])
    && (forall r :: Waits(m0, r) && r.op in sent ==> r in d)
  }

  /** d with every request of reqs answered. */
  ghost function AnswerAll(d: map<Request, Answer>, reqs: seq<Request>, a: Answer): map<Request, Answer> {
    if reqs == [] then d else AnswerAll(d, reqs[..|reqs| - 1], a)[reqs[|reqs| - 1] := a]
  }

  lemma {:induction false} AnswerAllIs(d: map<Request, Answer>, reqs: seq<Request>, a: Answer)
    ensures forall r :: r in AnswerAll(d, reqs, a) <==> r in d || r in reqs
    ensures forall r :: r in AnswerAll(d, reqs, a) ==> AnswerAll(d, reqs, a)[r] == (if r in reqs then a else d[r])
  {
    if reqs != [] {
      var before := reqs[..|reqs| - 1];
      AnswerAllIs(d, before, a);
      assert reqs == before + [reqs[|reqs| - 1]];
    }
  }

  lemma {:induction false} HandledMore(
      m0: map<OutPoint, seq<Request>>, d0: map<Request, Answer>, sent: map<OutPoint, Answer>,
      m: map<OutPoint, seq<Request>>, d: map<Request, Answer>, op: OutPoint, a: Answer)
    requires ListsOk(m0, d0) && Handled(m0, d0, sent, m, d) && op in m
    ensures ListOk(op, m[op], d)
    ensures Handled(m0, d0, sent[op := a], m - {op}, AnswerAll(d, m[op], a))
  {
    assert ListOk(op, m0[op], d0);
    AnswerAllIs(d, m[op], a);
    assert m - {op} == m0 - sent[op := a].Keys;
  }

  lemma {:induction false} ListsStay(
      m0: map<OutPoint, seq<Request>>, d0: map<Request, Answer>, sent: map<OutPoint, Answer>,
      m: map<OutPoint, seq<Request>>, d: map<Request, Answer>)
    requires ListsOk(m0, d0) && Handled(m0, d0, sent, m, d)
    ensures ListsOk(m, d)
  {
    forall op | op in m ensures ListOk(op, m[op], d) {
      assert ListOk(op, m0[op], d0);
    }
  }

  lemma {:induction false} AllSent(
      m0: map<OutPoint, seq<Request>>, d0: map<Request, Answer>, sent: map<OutPoint, Answer>, d: map<Request, Answer>)
    requires Handled(m0, d0, sent, map[], d)
    ensures sent.Keys == m0.Keys
  {
    assert forall op :: op in m0 && op !in sent ==> op in m0 - sent.Keys;
  }

  datatype Health = Sound | Unsound

  /** Whether the maps have the same keys, hold waiting requests that were not answered, and are
      watched for, as one value. */
  ghost function HealthOf(
      m: map<OutPoint, seq<Request>>, d: map<Request, Answer>, i: map<OutPoint, Option<Report>>, o: map<OutPoint, int>,
      entries: seq<int>): Health
  {
    if m.Keys == i.Keys && Cached(m, o) && ListsOk(m, d) && Watching(o, entries) then Sound else Unsound
  }

  datatype Standing = Settled | Unsettled

  /** Whether the outpoints of sent were answered and forgotten in all maps, as one value. */
  ghost function StandingOf(
      m0: map<OutPoint, seq<Request>>, d0: map<Request, Answer>, i0: map<OutPoint, Option<Report>>,
      o0: map<OutPoint, int>, sent: map<OutPoint, Answer>, m: map<OutPoint, seq<Request>>, d: map<Request, Answer>,
      i: map<OutPoint, Option<Report>>, o: map<OutPoint, int>): Standing
  {
    if Handled(m0, d0, sent, m, d) && i == i0 - sent.Keys && o == o0 - sent.Keys then Settled else Unsettled
  }

  lemma {:induction false} MapsStay(
      m0: map<OutPoint, seq<Request>>, d0: map<Request, Answer>, i0: map<OutPoint, Option<Report>>,
      o0: map<OutPoint, int>, sent: map<OutPoint, Answer>, m: map<OutPoint, seq<Request>>, d: map<Request, Answer>,
      i: map<OutPoint, Option<Report>>, o: map<OutPoint, int>)
    requires ListsOk(m0, d0) && Cached(m0, o0) && m0.Keys == i0.Keys
    requires StandingOf(m0, d0, i0, o0, sent, m, d, i, o) == Settled
    ensures ListsOk(m, d) && Cached(m, o) && m.Keys == i.Keys && (sent == map[] ==> o == o0)
  {
    ListsStay(m0, d0, sent, m, d);
  }

  /** One more outpoint is answered and forgotten. */
  lemma {:induction false} SettledMore(
      m0: map<OutPoint, seq<Request>>, d0: map<Request, Answer>, i0: map<OutPoint, Option<Report>>,
      o0: map<OutPoint, int>, sent: map<OutPoint, Answer>, m: map<OutPoint, seq<Request>>, d: map<Request, Answer>,
      i: map<OutPoint, Option<Report>>, o: map<OutPoint, int>, op: OutPoint, a: Answer)
    requires ListsOk(m0, d0) && op in m && StandingOf(m0, d0, i0, o0, sent, m, d, i, o) == Settled
    ensures ListOk(op, m[op], d)
    ensures StandingOf(m0, d0, i0, o0, sent[op := a], m - {op}, AnswerAll(d, m[op], a), i - {op}, o - {op}) == Settled
  {
    HandledMore(m0, d0, sent, m, d, op, a);
    assert sent[op := a].Keys == sent.Keys + {op};
    assert i - {op} == i0 - sent[op := a].Keys && o - {op} == o0 - sent[op := a].Keys;
  }

  /** The first spend of op in the first n transactions and the first k inputs of the next. */
  ghost function SpendAt(txs: seq<Tx>, n: nat, k: nat, height: nat, op: OutPoint): Option<Report>
    requires n < |txs| && k <= |txs[n].ins|
  {
    var earlier := SpendIn(txs, n, height, op);
    if earlier.Some? then earlier else SpendInTx(txs[n], k, height, op)
  }

  ghost predicate TellsOf(spends: map<OutPoint, Answer>, op: OutPoint, s: Option<Report>) {
    (op in spends <==> s.Some?) && (s.Some? ==> spends[op] == Found(s.value))
  }

  /** spends tells of every outpoint of m0 its first spend up to the position (n, k). */
  ghost predicate Told(m0: set<OutPoint>, spends: map<OutPoint, Answer>, txs: seq<Tx>, n: nat, k: nat, height: nat)
    requires n < |txs| && k <= |txs[n].ins|
  {
    forall op :: op in m0 ==> TellsOf(spends, op, SpendAt(txs, n, k, height, op))
  }

  /** The same for the first n transactions. */
  ghost predicate ToldTxs(m0: set<OutPoint>, spends: map<OutPoint, Answer>, txs: seq<Tx>, n: nat, height: nat)
    requires n <= |txs|
  {
    forall op :: op in m0 ==> TellsOf(spends, op, SpendIn(txs, n, height, op))
  }

  lemma {:induction false} ToldMore(
      m0: set<OutPoint>, spends: map<OutPoint, Answer>, txs: seq<Tx>, n: nat, k: nat, height: nat)
    requires n < |txs| && k < |txs[n].ins| && spends.Keys <= m0 && Told(m0, spends, txs, n, k, height)
    ensures var op := txs[n].ins[k];
      var told := if op in m0 - spends.Keys then spends[op := Found(Spend(txs[n], k, height))] else spends;
      Told(m0, told, txs, n, k + 1, height)
  {
    forall op | op in m0 ensures TellsOf(spends, op, SpendAt(txs, n, k, height, op)) {}
  }

  /** Before its first input a transaction adds nothing, and after its last one it is done. */
  lemma {:induction false} ToldEnds(m0: set<OutPoint>, spends: map<OutPoint, Answer>, txs: seq<Tx>, n: nat, height: nat)
    requires n < |txs|
    ensures ToldTxs(m0, spends, txs, n, height) <==> Told(m0, spends, txs, n, 0, height)
    ensures ToldTxs(m0, spends, txs, n + 1, height) <==> Told(m0, spends, txs, n, |txs[n].ins|, height)
  {
    forall op
      ensures SpendAt(txs, n, 0, height, op) == SpendIn(txs, n, height, op)
      ensures SpendAt(txs, n, |txs[n].ins|, height, op) == SpendIn(txs, n + 1, height, op)
    {
    }
  }

  // ------------------------------------------------------------------ new requests

  /** Appending requests that are new keeps the lists good and makes exactly these wait as well. */
  lemma {:induction false} AddedLists(m: map<OutPoint, seq<Request>>, d: map<Request, Answer>, reqs: seq<Request>)
    requires ListsOk(m, d) && NoRepeat(reqs) && forall r :: r in reqs ==> r !in d && !Waits(m, r)
    ensures ListsOk(Added(m, reqs), d)
    ensures forall r :: Waits(Added(m, reqs), r) <==> Waits(m, r) || r in reqs
  {
    if reqs != [] {
      var before, r := reqs[..|reqs| - 1], reqs[|reqs| - 1];
      AddedLists(m, d, before);
      assert reqs == before + [r] && r !in before;
      var m1 := Added(m, before);
      assert r.op in m1 ==> ListOk(r.op, m1[r.op], d);
      ListGrows(r.op, Listed(m1, r.op), d, r);
      WaitsMore(m1, r);
    }
  }

  lemma {:induction false} ListGrows(op: OutPoint, list: seq<Request>, d: map<Request, Answer>, r: Request)
    requires list == [] || ListOk(op, list, d)
    requires r.op == op && r !in list && r !in d
    ensures ListOk(op, list + [r], d)
  {
  }

  lemma {:induction false} WaitsMore(m: map<OutPoint, seq<Request>>, r: Request)
    ensures forall x :: Waits(m[r.op := Listed(m, r.op) + [r]], x) <==> Waits(m, x) || x == r
  {
    var now := m[r.op := Listed(m, r.op) + [r]];
    forall x ensures Waits(now, x) <==> Waits(m, x) || x == r {
      WaitsOneMore(m, r, x);
    }
  }

  lemma {:induction false} WaitsOneMore(m: map<OutPoint, seq<Request>>, r: Request, x: Request)
    ensures Waits(m[r.op := Listed(m, r.op) + [r]], x) <==> Waits(m, x) || x == r
  {
    var list := Listed(m, r.op);
    var now := m[r.op := list + [r]];
    if x.op == r.op {
      assert now[x.op] == list + [r];
      assert x in list + [r] <==> x in list || x == r;
      assert Waits(m, x) <==> x in list;
    } else {
      assert x.op in m <==> x.op in now;
      assert x.op in m ==> now[x.op] == m[x.op];
    }
  }

  /** initial with the report of each new request's own block put in. */
  function Initials(
      initial: map<OutPoint, Option<Report>>, block: Block, height: nat,
      reqs: seq<Request>): map<OutPoint, Option<Report>>
  {
    if reqs == [] then initial
    else
      var r := reqs[|reqs| - 1];
      Initials(initial, block, height, reqs[..|reqs| - 1])[r.op := CreatedIn(block, height, r.op)]
  }

  lemma {:induction false} InitialsAre(
      initial: map<OutPoint, Option<Report>>, block: Block, height: nat, m: map<OutPoint, seq<Request>>,
      reqs: seq<Request>)
    requires m.Keys == initial.Keys
    ensures Initials(initial, block, height, reqs).Keys == Added(m, reqs).Keys
    ensures var now := Initials(initial, block, height, reqs);
      forall r :: r in reqs ==> r.op in now && now[r.op] == CreatedIn(block, height, r.op)
    ensures var now := Initials(initial, block, height, reqs);
      forall op :: op in m && (forall r :: r in reqs ==> r.op != op) ==>
        op in now && now[op] == initial[op] && Added(m, reqs)[op] == m[op]
  {
    var now := Initials(initial, block, height, reqs);
    InitialsKeys(initial, block, height, m, reqs);
    forall r | r in reqs ensures r.op in now && now[r.op] == CreatedIn(block, height, r.op) {
      InitialOf(initial, block, height, m, reqs, r.op);
    }
    forall op | op in m && (forall r :: r in reqs ==> r.op != op)
      ensures op in now && now[op] == initial[op] && Added(m, reqs)[op] == m[op]
    {
      InitialOf(initial, block, height, m, reqs, op);
    }
  }

  /** What is recorded of new requests is the creation of their outputs, and the rest stays. */
  ghost predicate Recorded(
      initial: map<OutPoint, Option<Report>>, block: Block, height: nat, reqs: seq<Request>,
      now: map<OutPoint, Option<Report>>)
  {
    && (forall r :: r in reqs ==> r.op in now && ReportsCreation(block, height, r.op, now[r.op]))
    && (forall op :: op in initial && (forall r :: r in reqs ==> r.op != op) ==> op in now && now[op] == initial[op])
  }

  lemma {:induction false} RecordsCreations(
      initial: map<OutPoint, Option<Report>>, block: Block, height: nat, reqs: seq<Request>)
    ensures Recorded(initial, block, height, reqs, Initials(initial, block, height, reqs))
  {
    var now, m := Initials(initial, block, height, reqs), map op | op in initial :: [];
    InitialsAre(initial, block, height, m, reqs);
    forall r | r in reqs ensures r.op in now && ReportsCreation(block, height, r.op, now[r.op]) {
      CreatedIs(block, height, r.op);
    }
  }

  /** When new requests join, the lists stay good and the two maps keep the same keys. */
  lemma {:induction false} JoinKeeps(
      m: map<OutPoint, seq<Request>>, d: map<Request, Answer>, initial: map<OutPoint, Option<Report>>, block: Block,
      height: nat, reqs: seq<Request>)
    requires ListsOk(m, d) && NoRepeat(reqs) && forall r :: r in reqs ==> r !in d && !Waits(m, r)
    requires m.Keys == initial.Keys
    ensures ListsOk(Added(m, reqs), d) && Added(m, reqs).Keys == Initials(initial, block, height, reqs).Keys
    ensures reqs == [] ==> Added(m, reqs) == m && Initials(initial, block, height, reqs) == initial
  {
    AddedLists(m, d, reqs);
    InitialsKeys(initial, block, height, m, reqs);
  }

  lemma {:induction false} InitialsKeys(
      initial: map<OutPoint, Option<Report>>, block: Block, height: nat, m: map<OutPoint, seq<Request>>,
      reqs: seq<Request>)
    requires m.Keys == initial.Keys
    ensures Initials(initial, block, height, reqs).Keys == Added(m, reqs).Keys
  {
    if reqs != [] {
      InitialsKeys(initial, block, height, m, reqs[..|reqs| - 1]);
    }
  }

  lemma {:induction false} InitialOf(
      initial: map<OutPoint, Option<Report>>, block: Block, height: nat, m: map<OutPoint, seq<Request>>,
      reqs: seq<Request>, op: OutPoint)
    requires m.Keys == initial.Keys
    ensures var now := Initials(initial, block, height, reqs);
      if exists r :: r in reqs && r.op == op then op in now && now[op] == CreatedIn(block, height, op)
      else op in m ==> op in now && now[op] == initial[op] && op in Added(m, reqs) && Added(m, reqs)[op] == m[op]
  {
    if reqs != [] {
      var before, last := reqs[..|reqs| - 1], reqs[|reqs| - 1];
      InitialOf(initial, block, height, m, before, op);
      assert reqs == before + [last];
      assert last in reqs;
    }
  }

  lemma {:induction false} TxIndexStays(txs: seq<Tx>, n: nat, n': nat, txid: int)
    requires n <= n' <= |txs| && TxIndex(txs, n, txid).Some?
    ensures TxIndex(txs, n', txid) == TxIndex(txs, n, txid)
  {
    if n < n' { TxIndexStays(txs, n, n' - 1, txid); }
  }

  /** The reverse index after n transactions: the requests of every transaction id not yet met. */
  ghost predicate IndexOk(index: map<int, seq<Request>>, reqs: seq<Request>, txs: seq<Tx>, n: nat)
    requires n <= |txs|
  {
    && (forall r :: r in reqs && TxIndex(txs, n, r.op.txid).None? ==> r.op.txid in index && r in index[r.op.txid])
    && (forall t :: t in index ==>
          TxIndex(txs, n, t).None? && forall r :: r in index[t] ==> r in reqs && r.op.txid == t)
  }

  /** What is known of op after n transactions. */
  ghost predicate FoundAt(found: map<OutPoint, Option<Report>>, block: Block, height: nat, n: nat, op: OutPoint)
    requires n <= |block.txs|
  {
    var i := TxIndex(block.txs, n, op.txid);
    if i.None? then op !in found else op in found && found[op] == OutputAt(block, height, i.value, op)
  }

  ghost predicate FoundAll(found: map<OutPoint, Option<Report>>, block: Block, height: nat, n: nat, reqs: seq<Request>)
    requires n <= |block.txs|
  {
    && (forall r :: r in reqs ==> FoundAt(found, block, height, n, r.op))
    && (forall op :: op in found ==> TxIndex(block.txs, n, op.txid).Some?)
  }

  /** First construct the index from transaction id to requests. */
  method ReverseIndex(reqs: seq<Request>) returns (index: map<int, seq<Request>>)
    ensures IndexOk(index, reqs, [], 0)
  {
    index := map[];
    for i := 0 to |reqs|
      invariant IndexOk(index, reqs[..i], [], 0)
    {
      var r := reqs[i];
      assert reqs[..i + 1] == reqs[..i] + [r];
      index := index[r.op.txid := (if r.op.txid in index then index[r.op.txid] else []) + [r]];
    }
    assert reqs[..|reqs|] == reqs;
  }

  /** The outputs of transaction n that the listed requests ask for. */
  method FindOutputs(block: Block, n: nat, height: nat, txidReqs: seq<Request>, before: map<OutPoint, Option<Report>>)
    returns (found: map<OutPoint, Option<Report>>)
    requires n < |block.txs| && forall r :: r in txidReqs ==> r.op.txid == block.txs[n].txid
    ensures forall r :: r in txidReqs ==> r.op in found && found[r.op] == OutputAt(block, height, n, r.op)
    ensures forall op :: op in before ==> op in found && (op.txid != block.txs[n].txid ==> found[op] == before[op])
    ensures forall op :: op in found && op !in before ==> op.txid == block.txs[n].txid
  {
    found := before;
    for i := 0 to |txidReqs|
      invariant forall r :: r in txidReqs[..i] ==> r.op in found && found[r.op] == OutputAt(block, height, n, r.op)
      invariant forall op :: op in before ==> op in found && (op.txid != block.txs[n].txid ==> found[op] == before[op])
      invariant forall op :: op in found && op !in before ==> op.txid == block.txs[n].txid
    {
      var op := txidReqs[i].op;
      assert txidReqs[..i + 1] == txidReqs[..i] + [txidReqs[i]];
      if op.index >= |block.txs[n].outs| {
        found := found[op := None];
      } else {
        found := found[op := Some(Created(block.txs[n].outs[op.index], block.hash, height, n))];
      }
    }
    assert txidReqs[..|txidReqs|] == txidReqs;
  }

  lemma {:induction false} FoundMore(
      block: Block, height: nat, n: nat, reqs: seq<Request>, index: map<int, seq<Request>>,
      before: map<OutPoint, Option<Report>>, found: map<OutPoint, Option<Report>>)
    requires n < |block.txs| && IndexOk(index, reqs, block.txs, n) && FoundAll(before, block, height, n, reqs)
    requires var id := block.txs[n].txid;
      if id !in index then found == before
      else
        && (forall r :: r in index[id] ==> r.op in found && found[r.op] == OutputAt(block, height, n, r.op))
        && (forall op :: op in before ==> op in found && (op.txid != id ==> found[op] == before[op]))
        && (forall op :: op in found && op !in before ==> op.txid == id)
    ensures IndexOk(index - {block.txs[n].txid}, reqs, block.txs, n + 1) && FoundAll(found, block, height, n + 1, reqs)
  {
    var id := block.txs[n].txid;
    forall r | r in reqs ensures FoundAt(found, block, height, n + 1, r.op) {
      assert FoundAt(before, block, height, n, r.op);
    }
  }

  /** Once the block was read, or no id is left to meet, the reports found are the right ones. */
  lemma {:induction false} FoundIsCreated(
      block: Block, height: nat, n: nat, reqs: seq<Request>, index: map<int, seq<Request>>,
      found: map<OutPoint, Option<Report>>, r: Request)
    requires n <= |block.txs| && IndexOk(index, reqs, block.txs, n) && FoundAll(found, block, height, n, reqs)
    requires (n == |block.txs| || index == map[]) && r in reqs
    ensures (if r.op in found then found[r.op] else None) == CreatedIn(block, height, r.op)
  {
    assert FoundAt(found, block, height, n, r.op);
    if n < |block.txs| { TxIndexStays(block.txs, n, |block.txs|, r.op.txid); }
  }

  /** What is found in transaction n, with its id dropped from the index. */
  method FindAt(
      block: Block, n: nat, height: nat, before: map<int, seq<Request>>, known: map<OutPoint, Option<Report>>,
      ghost reqs: seq<Request>)
    returns (index: map<int, seq<Request>>, found: map<OutPoint, Option<Report>>)
    requires n < |block.txs| && IndexOk(before, reqs, block.txs, n) && FoundAll(known, block, height, n, reqs)
    ensures IndexOk(index, reqs, block.txs, n + 1) && FoundAll(found, block, height, n + 1, reqs)
  {
    var id := block.txs[n].txid;
    found := known;
    if id in before {
      found := FindOutputs(block, n, height, before[id], known);
    }
    FoundMore(block, height, n, reqs, before, known, found);
    index := before - {id};
  }

  /** Reads the block once, dropping a transaction id from the index when it is met. */
  method FindAll(block: Block, reqs: seq<Request>, height: nat) returns (found: map<OutPoint, Option<Report>>)
    ensures forall r :: r in reqs ==> (if r.op in found then found[r.op] else None) == CreatedIn(block, height, r.op)
    ensures forall r :: r in reqs ==>
      ReportsCreation(block, height, r.op, if r.op in found then found[r.op] else None)
  {
    var index := ReverseIndex(reqs);
    found := map[];
    var n := 0;
    while n < |block.txs| && index != map[]
      invariant n <= |block.txs| && IndexOk(index, reqs, block.txs, n) && FoundAll(found, block, height, n, reqs)
    {
      index, found := FindAt(block, n, height, index, found, reqs);
      n := n + 1;
    }
    forall r | r in reqs ensures (if r.op in found then found[r.op] else None) == CreatedIn(block, height, r.op) {
      FoundIsCreated(block, height, n, reqs, index, found, r);
    }
    forall r | r in reqs ensures ReportsCreation(block, height, r.op, CreatedIn(block, height, r.op)) {
      CreatedIs(block, height, r.op);
    }
  }

  ghost predicate Watches(outpoints: map<OutPoint, int>, e: int) {
    exists op :: op in outpoints && outpoints[op] == e
  }

  /** The watch list holds exactly the cached scripts. */
  ghost predicate Watching(outpoints: map<OutPoint, int>, entries: seq<int>) {
    && (forall op :: op in outpoints ==> outpoints[op] in entries)
    && (forall e :: e in entries ==> Watches(outpoints, e))
  }

  lemma {:induction false} WatchingMore(outpoints: map<OutPoint, int>, entries: seq<int>, op: OutPoint, script: int)
    requires Watching(outpoints, entries) && op !in outpoints
    ensures Watching(outpoints[op := script], entries + [script])
  {
    var now := outpoints[op := script];
    assert op in now && now[op] == script;
    forall e | e in entries ensures Watches(now, e) {
      var x :| x in outpoints && outpoints[x] == e;
      assert x in now && now[x] == e;
    }
  }

  function AnswerOf(tx: Option<Report>): Answer {
    if tx.Some? then Found(tx.value) else NotFound
  }

  class Reporter {
    var requests: map<OutPoint, seq<Request>>
    var initialTxns: map<OutPoint, Option<Report>>
    var outpoints: map<OutPoint, int>
    var filterEntries: seq<int>
    var delivered: map<Request, Answer>

    constructor ()
      ensures Valid() && requests == map[] && delivered == map[]
    {
      requests, initialTxns, outpoints, filterEntries, delivered := map[], map[], map[], [], map[];
    }

    ghost predicate Valid()
      reads this
    {
      HealthOf(requests, delivered, initialTxns, outpoints, filterEntries) == Sound
    }

    /** Answers every request waiting for op and forgets the outpoint. No request is answered twice. */
    method NotifyRequests(op: OutPoint, a: Answer)
      requires op in requests && ListOk(op, requests[op], delivered)
      modifies this`requests, this`initialTxns, this`outpoints, this`delivered
      ensures requests == old(requests) - {op} && initialTxns == old(initialTxns) - {op}
      ensures outpoints == old(outpoints) - {op}
      ensures delivered == AnswerAll(old(delivered), old(requests)[op], a)
    {
      var reqs := requests[op];
      requests, initialTxns, outpoints := requests - {op}, initialTxns - {op}, outpoints - {op};
      for i := 0 to |reqs|
        modifies this`delivered
        invariant delivered == AnswerAll(old(delivered), reqs[..i], a)
      {
        AnswerAllIs(old(delivered), reqs[..i], a);
        assert reqs[..i + 1][..i] == reqs[..i];
        Deliver(reqs[i], a);
      }
      assert reqs[..|reqs|] == reqs;
    }

    /** Sends a result to a request. The channel holds one result, so it must be empty. */
    method Deliver(r: Request, a: Answer)
      requires r !in delivered
      modifies this`delivered
      ensures delivered == old(delivered)[r := a]
    {
      delivered := delivered[r := a];
    }

    /** The state after the outpoints of sent were answered and forgotten, from a given one. */
    ghost predicate After(
        m0: map<OutPoint, seq<Request>>, d0: map<Request, Answer>, i0: map<OutPoint, Option<Report>>,
        o0: map<OutPoint, int>, sent: map<OutPoint, Answer>)
      reads this`requests, this`initialTxns, this`outpoints, this`delivered
    {
      StandingOf(m0, d0, i0, o0, sent, requests, delivered, initialTxns, outpoints) == Settled
    }

    /** Forgets one more outpoint. */
    method Forget(
        op: OutPoint, a: Answer, ghost sent: map<OutPoint, Answer>, ghost m0: map<OutPoint, seq<Request>>,
        ghost d0: map<Request, Answer>, ghost i0: map<OutPoint, Option<Report>>, ghost o0: map<OutPoint, int>)
      requires ListsOk(m0, d0) && After(m0, d0, i0, o0, sent) && op in requests
      modifies this`requests, this`initialTxns, this`outpoints, this`delivered
      ensures After(m0, d0, i0, o0, sent[op := a])
    {
      SettledMore(m0, d0, i0, o0, sent, requests, delivered, initialTxns, outpoints, op, a);
      NotifyRequests(op, a);
    }

    /** Adds new requests to the lists of their outpoints and their scripts to the watch list. */
    method AddNewRequests(reqs: seq<Request>)
      requires Cached(requests, outpoints) && Watching(outpoints, filterEntries)
      modifies this`requests, this`outpoints, this`filterEntries
      ensures requests == Added(old(requests), reqs)
      ensures Cached(requests, outpoints) && Watching(outpoints, filterEntries)
    {
      for i := 0 to |reqs|
        invariant requests == Added(old(requests), reqs[..i])
        invariant Cached(requests, outpoints) && Watching(outpoints, filterEntries)
      {
        assert reqs[..i + 1][..i] == reqs[..i];
        AddRequest(reqs[i]);
      }
      assert reqs[..|reqs|] == reqs;
    }

    method AddRequest(r: Request)
      requires Cached(requests, outpoints) && Watching(outpoints, filterEntries)
      modifies this`requests, this`outpoints, this`filterEntries
      ensures requests == old(requests)[r.op := Listed(old(requests), r.op) + [r]]
      ensures Cached(requests, outpoints) && Watching(outpoints, filterEntries)
    {
      requests := requests[r.op := (if r.op in requests then requests[r.op] else []) + [r]];
      if r.op !in outpoints {
        WatchingMore(outpoints, filterEntries, r.op, r.script);
        outpoints := outpoints[r.op := r.script];
        filterEntries := filterEntries + [r.script];
      }
    }

    /** Records, for every new request, the report of its output in this block. */
    method FindInitialTransactions(block: Block, newReqs: seq<Request>, height: nat)
      modifies this`initialTxns
      ensures initialTxns == Initials(old(initialTxns), block, height, newReqs)
      ensures Recorded(old(initialTxns), block, height, newReqs, initialTxns)
    {
      var found := FindAll(block, newReqs, height);
      for i := 0 to |newReqs|
        invariant initialTxns == Initials(old(initialTxns), block, height, newReqs[..i])
        invariant forall r :: r in newReqs ==>
          (if r.op in found then found[r.op] else None) == CreatedIn(block, height, r.op)
      {
        assert newReqs[..i + 1][..i] == newReqs[..i];
        var op := newReqs[i].op;
        var tx := if op in found then found[op] else None;
        if op !in found {
          found := found[op := None];
        }
        initialTxns := initialTxns[op := tx];
      }
      assert newReqs[..|newReqs|] == newReqs;
      RecordsCreations(old(initialTxns), block, height, newReqs);
    }

    /** Answers and forgets the outpoints that the block spends: each with its first spend. */
    method NotifySpends(block: Block, height: nat) returns (spends: map<OutPoint, Answer>)
      requires ListsOk(requests, delivered)
      modifies this`requests, this`initialTxns, this`outpoints, this`delivered
      ensures After(old(requests), old(delivered), old(initialTxns), old(outpoints), spends)
      ensures ToldTxs(old(requests).Keys, spends, block.txs, |block.txs|, height)
    {
      spends := map[];
      for n := 0 to |block.txs|
        invariant After(old(requests), old(delivered), old(initialTxns), old(outpoints), spends)
        invariant ToldTxs(old(requests).Keys, spends, block.txs, n, height)
      {
        spends := NotifyTx(block, n, height, spends, old(requests), old(delivered), old(initialTxns), old(outpoints));
      }
    }

    /** The inner loop: the inputs of transaction n. */
    method NotifyTx(
        block: Block, n: nat, height: nat, before: map<OutPoint, Answer>, ghost m0: map<OutPoint, seq<Request>>,
        ghost d0: map<Request, Answer>, ghost i0: map<OutPoint, Option<Report>>, ghost o0: map<OutPoint, int>)
      returns (spends: map<OutPoint, Answer>)
      requires n < |block.txs| && ListsOk(m0, d0) && After(m0, d0, i0, o0, before)
      requires ToldTxs(m0.Keys, before, block.txs, n, height)
      modifies this`requests, this`initialTxns, this`outpoints, this`delivered
      ensures After(m0, d0, i0, o0, spends) && ToldTxs(m0.Keys, spends, block.txs, n + 1, height)
    {
      spends := before;
      ToldEnds(m0.Keys, spends, block.txs, n, height);
      for k := 0 to |block.txs[n].ins|
        invariant After(m0, d0, i0, o0, spends) && Told(m0.Keys, spends, block.txs, n, k, height)
      {
        spends := NotifyInput(block, n, k, height, spends, m0, d0, i0, o0);
      }
      ToldEnds(m0.Keys, spends, block.txs, n, height);
    }

    /** Input k of transaction n. */
    method NotifyInput(
        block: Block, n: nat, k: nat, height: nat, before: map<OutPoint, Answer>, ghost m0: map<OutPoint, seq<Request>>,
        ghost d0: map<Request, Answer>, ghost i0: map<OutPoint, Option<Report>>, ghost o0: map<OutPoint, int>)
      returns (spends: map<OutPoint, Answer>)
      requires n < |block.txs| && k < |block.txs[n].ins| && ListsOk(m0, d0) && After(m0, d0, i0, o0, before)
      requires Told(m0.Keys, before, block.txs, n, k, height)
      modifies this`requests, this`initialTxns, this`outpoints, this`delivered
      ensures After(m0, d0, i0, o0, spends) && Told(m0.Keys, spends, block.txs, n, k + 1, height)
    {
      spends := before;
      var tx := block.txs[n];
      var op := tx.ins[k];
      ToldMore(m0.Keys, spends, block.txs, n, k, height);
      if op in requests {
        Forget(op, Found(Spend(tx, k, height)), spends, m0, d0, i0, o0);
        spends := spends[op := Found(Spend(tx, k, height))];
      }
    }

    /** Rebuilds the watch list from the cached scripts, if asked to. */
    method RebuildWatchlist(needed: bool)
      requires needed || Watching(outpoints, filterEntries)
      modifies this`filterEntries
      ensures Watching(outpoints, filterEntries)
    {
      if !needed {
        return;
      }
      filterEntries := [];
      var left := outpoints.Keys;
      while left != {}
        invariant left <= outpoints.Keys
        invariant forall op :: op in outpoints && op !in left ==> outpoints[op] in filterEntries
        invariant forall e :: e in filterEntries ==> Watches(outpoints, e)
        decreases left
      {
        var op :| op in left;
        left := left - {op};
        filterEntries := filterEntries + [outpoints[op]];
      }
    }

    /** One block: the new requests join, every outpoint the block spends is answered, and the
        rest stay, with the report of their own block for the new ones. */
    method ProcessBlock(block: Block, newReqs: seq<Request>, height: nat) returns (ghost spends: map<OutPoint, Answer>)
      requires Valid() && NoRepeat(newReqs) && forall r :: r in newReqs ==> r !in delivered && !Waits(requests, r)
      modifies this
      ensures Valid()
      ensures Handled(Added(old(requests), newReqs), old(delivered), spends, requests, delivered)
      ensures initialTxns == Initials(old(initialTxns), block, height, newReqs) - spends.Keys
      ensures ToldTxs(Added(old(requests), newReqs).Keys, spends, block.txs, |block.txs|, height)
    {
      Join(block, newReqs, height);
      spends := Settle(block, height, |newReqs| > 0);
    }

    /** The second half of a block: the outpoints it spends are answered, and the watch list is
        rebuilt if anything changed. */
    method Settle(block: Block, height: nat, grown: bool) returns (spends: map<OutPoint, Answer>)
      requires Valid()
      modifies this
      ensures Valid()
      ensures After(old(requests), old(delivered), old(initialTxns), old(outpoints), spends)
      ensures ToldTxs(old(requests).Keys, spends, block.txs, |block.txs|, height)
    {
      spends := NotifySpends(block, height);
      MapsStay(
        old(requests), old(delivered), old(initialTxns), old(outpoints), spends, requests, delivered, initialTxns,
        outpoints);
      assert |spends| == 0 ==> spends == map[];
      RebuildWatchlist(grown || |spends| > 0);
    }

    /** The first half of a block: the new requests join. */
    method Join(block: Block, newReqs: seq<Request>, height: nat)
      requires Valid() && NoRepeat(newReqs) && forall r :: r in newReqs ==> r !in delivered && !Waits(requests, r)
      modifies this`requests, this`initialTxns, this`outpoints, this`filterEntries
      ensures requests == Added(old(requests), newReqs)
      ensures initialTxns == Initials(old(initialTxns), block, height, newReqs)
      ensures Valid() && (newReqs == [] ==> outpoints == old(outpoints))
    {
      ghost var m, d, i := requests, delivered, initialTxns;
      if |newReqs| > 0 {
        AddNewRequests(newReqs);
        FindInitialTransactions(block, newReqs, height);
      }
      JoinKeeps(m, d, i, block, height, newReqs);
    }

    /** Ends the batch: every request still waiting gets the recorded report, nil if there is none. */
    method NotifyUnspentAndUnfound() returns (ghost sent: map<OutPoint, Answer>)
      requires ListsOk(requests, delivered) && requests.Keys == initialTxns.Keys
      modifies this`requests, this`initialTxns, this`outpoints, this`delivered
      ensures requests == map[] && Handled(old(requests), old(delivered), sent, requests, delivered)
      ensures forall op :: op in old(requests) ==> op in sent && sent[op] == AnswerOf(old(initialTxns)[op])
    {
      sent := map[];
      while requests != map[]
        invariant After(old(requests), old(delivered), old(initialTxns), old(outpoints), sent)
        invariant forall op :: op in sent ==> sent[op] == AnswerOf(old(initialTxns)[op])
        decreases requests.Keys
      {
        var op :| op in requests;
        var a := AnswerOf(initialTxns[op]);
        Forget(op, a, sent, old(requests), old(delivered), old(initialTxns), old(outpoints));
        sent := sent[op := a];
      }
      AllSent(old(requests), old(delivered), sent, delivered);
    }

    /** Ends the batch early: every request still waiting gets the error. */
    method FailRemaining(err: Error) returns (ghost sent: map<OutPoint, Answer>)
      requires ListsOk(requests, delivered) && requests.Keys == initialTxns.Keys
      modifies this`requests, this`initialTxns, this`outpoints, this`delivered
      ensures requests == map[] && Handled(old(requests), old(delivered), sent, requests, delivered)
      ensures forall op :: op in old(requests) ==> op in sent && sent[op] == Failed(err)
    {
      sent := map[];
      while requests != map[]
        invariant After(old(requests), old(delivered), old(initialTxns), old(outpoints), sent)
        invariant forall op :: op in sent ==> sent[op] == Failed(err)
        decreases requests.Keys
      {
        var op :| op in requests;
        Forget(op, Failed(err), sent, old(requests), old(delivered), old(initialTxns), old(outpoints));
        sent := sent[op := Failed(err)];
      }
      AllSent(old(requests), old(delivered), sent, delivered);
    }
  }
}
