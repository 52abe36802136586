/**
 * What a batch of the UTXO scanner owes each request: the answer of a naive scan of every block
 * from the request's birth height on, made for that request alone. The lemmas follow one batch
 * over its blocks, read or skipped, and compare its answers with the naive ones.
 */
module UtxoScan {
  import opened Chain
  import opened SpendReporter

  /** The first spend of op in the blocks from..to-1. */
  function FirstSpend(chain: seq<Block>, from: nat, to: nat, op: OutPoint): Option<Report>
    requires to <= |chain|
  {
    if to <= from then None
    else
      var earlier := FirstSpend(chain, from, to - 1, op);
      if earlier.Some? then earlier else SpendIn(chain[to - 1].txs, |chain[to - 1].txs|, to - 1, op)
  }

  /** The answer of a scan for r alone. */
  function Naive(chain: seq<Block>, to: nat, r: Request): Answer
    requires r.birth < to <= |chain|
  {
    var s := FirstSpend(chain, r.birth, to, r.op);
    if s.Some? then Found(s.value) else AnswerOf(CreatedIn(chain[r.birth], r.birth, r.op))
  }

  // ------------------------------------------------------------------ first means first

  ghost predicate SpendsAt(chain: seq<Block>, h: nat, t: nat, i: nat, op: OutPoint) {
    h < |chain| && t < |chain[h].txs| && i < |chain[h].txs[t].ins| && chain[h].txs[t].ins[i] == op
  }

  /** Input i is the first of the transaction to spend op. */
  predicate FirstInput(tx: Tx, i: nat, op: OutPoint)
    requires i < |tx.ins|
  {
    tx.ins[i] == op && forall j :: 0 <= j < i ==> tx.ins[j] != op
  }

  lemma {:induction false} SpendInTxIsFirst(tx: Tx, k: nat, height: nat, op: OutPoint)
    requires k <= |tx.ins|
    ensures var s := SpendInTx(tx, k, height, op);
      if s.None? then forall i :: 0 <= i < k ==> tx.ins[i] != op
      else exists i :: 0 <= i < k && s.value == Spend(tx, i, height) && FirstInput(tx, i, op)
  {
    if 0 < k { SpendInTxIsFirst(tx, k - 1, height, op); }
  }

  /** The spend that SpendIn finds is at a position with none before it in the block. */
  lemma {:induction false} SpendInIsFirst(chain: seq<Block>, h: nat, n: nat, op: OutPoint) returns (t: nat, i: nat)
    requires h < |chain| && n <= |chain[h].txs|
    ensures SpendIn(chain[h].txs, n, h, op).None? ==>
      forall t': nat, i': nat :: t' < n ==> !SpendsAt(chain, h, t', i', op)
    ensures SpendIn(chain[h].txs, n, h, op).Some? ==>
      && t < n && SpendsAt(chain, h, t, i, op) && SpendIn(chain[h].txs, n, h, op).value == Spend(chain[h].txs[t], i, h)
      && forall t': nat, i': nat :: SpendsAt(chain, h, t', i', op) ==> t < t' || (t == t' && i <= i')
  {
    t, i := 0, 0;
    if 0 < n {
      t, i := SpendInIsFirst(chain, h, n - 1, op);
      if SpendIn(chain[h].txs, n - 1, h, op).None? {
        var tx := chain[h].txs[n - 1];
        SpendInTxIsFirst(tx, |tx.ins|, h, op);
        t := n - 1;
        if SpendInTx(tx, |tx.ins|, h, op).Some? {
          i :| 0 <= i < |tx.ins| && SpendInTx(tx, |tx.ins|, h, op).value == Spend(tx, i, h) && FirstInput(tx, i, op);
        }
      }
    }
  }

  /** FirstSpend is none when no input of the range spends op, and else the least position, in the
      order of height, transaction and input, that does. */
  lemma {:induction false} FirstSpendIsFirst(chain: seq<Block>, from: nat, to: nat, op: OutPoint)
    returns (h: nat, t: nat, i: nat)
    requires to <= |chain|
    ensures FirstSpend(chain, from, to, op).None? <==>
      forall h': nat, t': nat, i': nat :: from <= h' < to ==> !SpendsAt(chain, h', t', i', op)
    ensures FirstSpend(chain, from, to, op).Some? ==>
      && from <= h < to && SpendsAt(chain, h, t, i, op)
      && FirstSpend(chain, from, to, op).value == Spend(chain[h].txs[t], i, h)
      && forall h': nat, t': nat, i': nat :: from <= h' && SpendsAt(chain, h', t', i', op) ==>
           h < h' || (h == h' && (t < t' || (t == t' && i <= i')))
  {
    h, t, i := 0, 0, 0;
    if from < to {
      h, t, i := FirstSpendIsFirst(chain, from, to - 1, op);
      if FirstSpend(chain, from, to - 1, op).None? {
        h := to - 1;
        t, i := SpendInIsFirst(chain, h, |chain[h].txs|, op);
      }
    }
  }

  // ------------------------------------------------------------------ one batch

  /** The requests waiting for op when the blocks below h were scanned: none was spent since its
      birth, and the recorded report is that of the birth block of the last, which is the latest. */
  ghost predicate WaitingOk(
      chain: seq<Block>, h: nat, cap: nat, op: OutPoint, list: seq<Request>, initial: Option<Report>)
    requires h <= |chain| && cap <= |chain|
  {
    list != [] &&
    var b := list[|list| - 1].birth;
    && b < cap && initial == CreatedIn(chain[b], b, op)
    && forall r :: r in list ==> r.birth <= b && FirstSpend(chain, r.birth, h, op).None?
  }

  ghost predicate Scanned(
      chain: seq<Block>, h: nat, cap: nat, m: map<OutPoint, seq<Request>>, initial: map<OutPoint, Option<Report>>)
    requires h <= |chain| && cap <= |chain|
  {
    m.Keys == initial.Keys && forall op :: op in m ==> WaitingOk(chain, h, cap, op, m[op], initial[op])
  }

  ghost predicate SpentAt(chain: seq<Block>, h: nat, r: Request, a: Answer)
    requires h <= |chain|
  {
    r.birth < h && FirstSpend(chain, r.birth, h, r.op).Some? && a == Found(FirstSpend(chain, r.birth, h, r.op).value)
  }

  ghost predicate SpentOk(chain: seq<Block>, h: nat, d: map<Request, Answer>)
    requires h <= |chain|
  {
    forall r :: r in d ==> SpentAt(chain, h, r, d[r])
  }

  /** New requests born at h join: nothing of them was scanned yet. */
  lemma {:induction false} JoinScanned(
      chain: seq<Block>, h: nat, m: map<OutPoint, seq<Request>>, initial: map<OutPoint, Option<Report>>,
      reqs: seq<Request>)
    requires h < |chain| && Scanned(chain, h, h, m, initial) && forall r :: r in reqs ==> r.birth == h
    ensures Scanned(chain, h, h + 1, Added(m, reqs), Initials(initial, chain[h], h, reqs))
  {
    if reqs == [] {
      forall op | op in m ensures WaitingOk(chain, h, h + 1, op, m[op], initial[op]) {
        assert WaitingOk(chain, h, h, op, m[op], initial[op]);
      }
    } else {
      var before, r := reqs[..|reqs| - 1], reqs[|reqs| - 1];
      JoinScanned(chain, h, m, initial, before);
      ScannedMore(chain, h, r, Added(m, before), Initials(initial, chain[h], h, before));
    }
  }

  lemma {:induction false} ScannedMore(
      chain: seq<Block>, h: nat, r: Request, m: map<OutPoint, seq<Request>>, initial: map<OutPoint, Option<Report>>)
    requires h < |chain| && r.birth == h && Scanned(chain, h, h + 1, m, initial)
    ensures Scanned(chain, h, h + 1, m[r.op := Listed(m, r.op) + [r]], initial[r.op := CreatedIn(chain[h], h, r.op)])
  {
    var m', i' := m[r.op := Listed(m, r.op) + [r]], initial[r.op := CreatedIn(chain[h], h, r.op)];
    JoinOne(chain, h, r, Listed(m, r.op), if r.op in m then initial[r.op] else None);
    forall op | op in m' ensures WaitingOk(chain, h, h + 1, op, m'[op], i'[op]) {
      if op != r.op { assert WaitingOk(chain, h, h + 1, op, m[op], initial[op]); }
    }
  }

  lemma {:induction false} JoinOne(chain: seq<Block>, h: nat, r: Request, list: seq<Request>, initial: Option<Report>)
    requires h < |chain| && r.birth == h && (list == [] || WaitingOk(chain, h, h + 1, r.op, list, initial))
    ensures WaitingOk(chain, h, h + 1, r.op, list + [r], CreatedIn(chain[h], h, r.op))
  {
  }

  lemma {:induction false} WaitOn(
      chain: seq<Block>, h: nat, cap: nat, op: OutPoint, list: seq<Request>, initial: Option<Report>)
    requires h < |chain| && cap <= h + 1 && WaitingOk(chain, h, cap, op, list, initial)
    requires SpendIn(chain[h].txs, |chain[h].txs|, h, op).None?
    ensures WaitingOk(chain, h + 1, h + 1, op, list, initial)
  {
  }

  lemma {:induction false} SpentStays(chain: seq<Block>, h: nat, d: map<Request, Answer>)
    requires h < |chain| && SpentOk(chain, h, d)
    ensures SpentOk(chain, h + 1, d)
  {
    forall r | r in d ensures SpentAt(chain, h + 1, r, d[r]) {
      assert SpentAt(chain, h, r, d[r]);
    }
  }

  lemma {:induction false} SpentToEnd(chain: seq<Block>, h: nat, r: Request, a: Answer)
    requires h <= |chain| && SpentAt(chain, h, r, a)
    ensures SpentAt(chain, |chain|, r, a)
    decreases |chain| - h
  {
    if h < |chain| { SpentToEnd(chain, h + 1, r, a); }
  }

  /** A block was scanned: outpoints it spends are gone, the others wait on. */
  lemma {:induction false} BlockScanned(
      chain: seq<Block>, h: nat, m0: map<OutPoint, seq<Request>>, i0: map<OutPoint, Option<Report>>,
      d0: map<Request, Answer>, spends: map<OutPoint, Answer>, m: map<OutPoint, seq<Request>>, d: map<Request, Answer>)
    requires h < |chain| && Scanned(chain, h, h + 1, m0, i0) && SpentOk(chain, h, d0)
    requires Handled(m0, d0, spends, m, d)
    requires ToldTxs(m0.Keys, spends, chain[h].txs, |chain[h].txs|, h)
    ensures Scanned(chain, h + 1, h + 1, m, i0 - spends.Keys) && SpentOk(chain, h + 1, d)
  {
    var i := i0 - spends.Keys;
    forall op | op in m ensures op in i && WaitingOk(chain, h + 1, h + 1, op, m[op], i[op]) {
      assert TellsOf(spends, op, SpendIn(chain[h].txs, |chain[h].txs|, h, op));
      WaitOn(chain, h, h + 1, op, m0[op], i0[op]);
    }
    NewlySpent(chain, h, m0, i0, d0, spends, m, d);
  }

  lemma {:induction false} NewlySpent(
      chain: seq<Block>, h: nat, m0: map<OutPoint, seq<Request>>, i0: map<OutPoint, Option<Report>>,
      d0: map<Request, Answer>, spends: map<OutPoint, Answer>, m: map<OutPoint, seq<Request>>, d: map<Request, Answer>)
    requires h < |chain| && Scanned(chain, h, h + 1, m0, i0) && SpentOk(chain, h, d0)
    requires Handled(m0, d0, spends, m, d)
    requires ToldTxs(m0.Keys, spends, chain[h].txs, |chain[h].txs|, h)
    ensures SpentOk(chain, h + 1, d)
  {
    SpentStays(chain, h, d0);
    forall r | r in d ensures SpentAt(chain, h + 1, r, d[r]) {
      if r !in d0 {
        assert Waits(m0, r) && r.op in spends;
        assert TellsOf(spends, r.op, SpendIn(chain[h].txs, |chain[h].txs|, h, r.op));
        NowSpent(chain, h, r, m0[r.op], i0[r.op], d[r]);
      }
    }
  }

  lemma {:induction false} NowSpent(
      chain: seq<Block>, h: nat, r: Request, list: seq<Request>, initial: Option<Report>, a: Answer)
    requires h < |chain| && WaitingOk(chain, h, h + 1, r.op, list, initial) && r in list
    requires var s := SpendIn(chain[h].txs, |chain[h].txs|, h, r.op); s.Some? && a == Found(s.value)
    ensures SpentAt(chain, h + 1, r, a)
  {
  }

  /** Filters tell of every block that spends an outpoint whose script is watched for. */
  ghost predicate NoFalseNegatives(chain: seq<Block>, scriptOf: OutPoint -> int, matches: (seq<int>, nat) -> bool) {
    forall h: nat, entries, op ::
      h < |chain| && SpendIn(chain[h].txs, |chain[h].txs|, h, op).Some? && scriptOf(op) in entries ==>
        matches(entries, h)
  }

  ghost predicate TrueScripts(scriptOf: OutPoint -> int, known: set<Request>) {
    forall r :: r in known ==> r.script == scriptOf(r.op)
  }

  lemma {:induction false} SkipsNothing(
      chain: seq<Block>, h: nat, m: map<OutPoint, seq<Request>>, d: map<Request, Answer>, op: OutPoint,
      outpoints: map<OutPoint, int>, entries: seq<int>, scriptOf: OutPoint -> int, matches: (seq<int>, nat) -> bool,
      known: set<Request>)
    requires h < |chain| && op in m && ListOk(op, m[op], d) && Cached(m, outpoints) && Watching(outpoints, entries)
    requires TrueScripts(scriptOf, known) && forall r :: Waits(m, r) ==> r in known
    requires NoFalseNegatives(chain, scriptOf, matches) && !matches(entries, h)
    ensures SpendIn(chain[h].txs, |chain[h].txs|, h, op).None?
  {
    assert m[op][0] in m[op] && Waits(m, m[op][0]);
    assert outpoints[op] == scriptOf(op) && scriptOf(op) in entries;
  }

  /** A block whose filter does not match spends nothing waited for, so it may be skipped. */
  lemma {:induction false} SkipScanned(
      chain: seq<Block>, h: nat, m: map<OutPoint, seq<Request>>, initial: map<OutPoint, Option<Report>>,
      d: map<Request, Answer>, outpoints: map<OutPoint, int>, entries: seq<int>, scriptOf: OutPoint -> int,
      matches: (seq<int>, nat) -> bool, known: set<Request>)
    requires h < |chain| && Scanned(chain, h, h, m, initial) && SpentOk(chain, h, d)
    requires Cached(m, outpoints) && Watching(outpoints, entries) && ListsOk(m, d)
    requires TrueScripts(scriptOf, known) && forall r :: Waits(m, r) ==> r in known
    requires NoFalseNegatives(chain, scriptOf, matches) && !matches(entries, h)
    ensures Scanned(chain, h + 1, h + 1, m, initial) && SpentOk(chain, h + 1, d)
  {
    forall op | op in m ensures WaitingOk(chain, h + 1, h + 1, op, m[op], initial[op]) {
      SkipsNothing(chain, h, m, d, op, outpoints, entries, scriptOf, matches, known);
      WaitOn(chain, h, h, op, m[op], initial[op]);
    }
    SpentStays(chain, h, d);
  }

  // ------------------------------------------------------------------ the answers of a batch

  /** b is the latest birth among the requests of the batch for op that stayed unspent. */
  ghost predicate LatestBirth(chain: seq<Block>, to: nat, batch: map<Request, Answer>, op: OutPoint, b: nat)
    requires to <= |chain|
  {
    && b < to
    && (exists r :: Unspent(chain, to, batch, op, r) && r.birth == b)
    && forall r :: Unspent(chain, to, batch, op, r) ==> r.birth <= b
  }

  ghost predicate Unspent(chain: seq<Block>, to: nat, batch: map<Request, Answer>, op: OutPoint, r: Request)
    requires to <= |chain|
  {
    r in batch && r.op == op && FirstSpend(chain, r.birth, to, op).None?
  }

  /** The answer of r in a batch that scanned the blocks below to: its first spend if there is one,
      and else the creation of the output in the block of the latest birth for the outpoint. */
  ghost predicate BatchAnswer(chain: seq<Block>, to: nat, batch: map<Request, Answer>, r: Request)
    requires to <= |chain| && r in batch
  {
    r.birth < to &&
    var s := FirstSpend(chain, r.birth, to, r.op);
    if s.Some? then batch[r] == Found(s.value)
    else exists b: nat :: LatestBirth(chain, to, batch, r.op, b) && batch[r] == AnswerOf(CreatedIn(chain[b], b, r.op))
  }

  ghost predicate BatchAnswers(chain: seq<Block>, to: nat, batch: map<Request, Answer>)
    requires to <= |chain|
  {
    forall r :: r in batch ==> BatchAnswer(chain, to, batch, r)
  }

  lemma {:induction false} BatchEnds(
      chain: seq<Block>, to: nat, m0: map<OutPoint, seq<Request>>, i0: map<OutPoint, Option<Report>>,
      d0: map<Request, Answer>, sent: map<OutPoint, Answer>, d: map<Request, Answer>)
    requires to <= |chain| && Scanned(chain, to, to, m0, i0) && SpentOk(chain, to, d0) && ListsOk(m0, d0)
    requires Handled(m0, d0, sent, map[], d) && forall op :: op in m0 ==> op in sent && sent[op] == AnswerOf(i0[op])
    ensures BatchAnswers(chain, to, d)
  {
    forall r | r in d ensures BatchAnswer(chain, to, d, r) {
      if r in d0 {
        assert SpentAt(chain, to, r, d0[r]);
      } else {
        assert Waits(m0, r) && d[r] == sent[r.op];
        UnspentAnswer(chain, to, m0, i0, d0, sent, d, r);
      }
    }
  }

  lemma {:induction false} UnspentAnswer(
      chain: seq<Block>, to: nat, m0: map<OutPoint, seq<Request>>, i0: map<OutPoint, Option<Report>>,
      d0: map<Request, Answer>, sent: map<OutPoint, Answer>, d: map<Request, Answer>, r: Request)
    requires to <= |chain| && Scanned(chain, to, to, m0, i0) && SpentOk(chain, to, d0) && ListsOk(m0, d0)
    requires Handled(m0, d0, sent, map[], d) && Waits(m0, r) && r.op in sent && sent[r.op] == AnswerOf(i0[r.op])
    requires r in d && d[r] == sent[r.op]
    ensures BatchAnswer(chain, to, d, r)
  {
    assert WaitingOk(chain, to, to, r.op, m0[r.op], i0[r.op]);
    var b := LastIsLatest(chain, to, m0, i0, d0, sent, d, r.op);
  }

  lemma {:induction false} LastIsLatest(
      chain: seq<Block>, to: nat, m0: map<OutPoint, seq<Request>>, i0: map<OutPoint, Option<Report>>,
      d0: map<Request, Answer>, sent: map<OutPoint, Answer>, d: map<Request, Answer>, op: OutPoint)
    returns (b: nat)
    requires to <= |chain| && SpentOk(chain, to, d0) && op in m0 && ListOk(op, m0[op], d0)
    requires op in i0 && WaitingOk(chain, to, to, op, m0[op], i0[op])
    requires Handled(m0, d0, sent, map[], d) && op in sent
    ensures LatestBirth(chain, to, d, op, b) && i0[op] == CreatedIn(chain[b], b, op)
  {
    var list := m0[op];
    var last := list[|list| - 1];
    b := last.birth;
    assert last in list && Waits(m0, last);
    assert Unspent(chain, to, d, op, last);
    forall x | Unspent(chain, to, d, op, x) ensures x.birth <= last.birth {
      if x in d0 {
        assert false;
      }
    }
  }

  /** The batch answers r as a scan for r alone would, exactly when r is spent, or has the latest
      birth of the unspent requests for its outpoint, or the output is made in neither block. */
  lemma {:induction false} AgreesWithNaive(chain: seq<Block>, to: nat, batch: map<Request, Answer>, r: Request, b: nat)
    requires to <= |chain| && r in batch && BatchAnswer(chain, to, batch, r)
    requires FirstSpend(chain, r.birth, to, r.op).None? ==> LatestBirth(chain, to, batch, r.op, b)
    ensures batch[r] == Naive(chain, to, r) <==>
      || FirstSpend(chain, r.birth, to, r.op).Some? || r.birth == b
      || (CreatedIn(chain[r.birth], r.birth, r.op).None? && CreatedIn(chain[b], b, r.op).None?)
  {
    if FirstSpend(chain, r.birth, to, r.op).None? {
      var b': nat :| LatestBirth(chain, to, batch, r.op, b') && batch[r] == AnswerOf(CreatedIn(chain[b'], b', r.op));
      assert b == b';
    }
  }

  /** The answer in terms of positions: the input that spends the outpoint first, in the order of
      height, transaction and input; and else, for the latest birth h, the output of the first
      transaction of its block with the id, or nothing if there is none. */
  lemma {:induction false} AnswerIs(chain: seq<Block>, to: nat, batch: map<Request, Answer>, r: Request)
    returns (h: nat, t: nat, i: nat)
    requires to <= |chain| && r in batch && BatchAnswer(chain, to, batch, r)
    ensures r.birth <= h < to
    ensures (exists h': nat, t': nat, i': nat :: r.birth <= h' < to && SpendsAt(chain, h', t', i', r.op)) ==>
      && SpendsAt(chain, h, t, i, r.op) && batch[r] == Found(Spend(chain[h].txs[t], i, h))
      && forall h': nat, t': nat, i': nat :: r.birth <= h' && SpendsAt(chain, h', t', i', r.op) ==>
           h < h' || (h == h' && (t < t' || (t == t' && i <= i')))
    ensures (forall h': nat, t': nat, i': nat :: r.birth <= h' < to ==> !SpendsAt(chain, h', t', i', r.op)) ==>
      && LatestBirth(chain, to, batch, r.op, h)
      && if forall t': nat :: !CreatesAt(chain[h], t', r.op) then batch[r] == NotFound
         else
           && CreatesAt(chain[h], t, r.op)
           && batch[r] == Found(Created(chain[h].txs[t].outs[r.op.index], chain[h].hash, h, t))
  {
    h, t, i := FirstSpendIsFirst(chain, r.birth, to, r.op);
    if FirstSpend(chain, r.birth, to, r.op).None? {
      h :| LatestBirth(chain, to, batch, r.op, h) && batch[r] == AnswerOf(CreatedIn(chain[h], h, r.op));
      assert Unspent(chain, to, batch, r.op, r);
      CreatedIs(chain[h], h, r.op);
      if CreatedIn(chain[h], h, r.op).Some? { t :| CreatesAt(chain[h], t, r.op); }
    }
  }

  /** Hence batching changes no answer when the requests for one outpoint share their birth height. */
  lemma {:induction false} EqualBirthsAgree(chain: seq<Block>, to: nat, batch: map<Request, Answer>, r: Request)
    requires to <= |chain| && r in batch && BatchAnswer(chain, to, batch, r)
    requires forall x :: x in batch && x.op == r.op ==> x.birth == r.birth
    ensures batch[r] == Naive(chain, to, r)
  {
    if FirstSpend(chain, r.birth, to, r.op).None? {
      var b: nat :| LatestBirth(chain, to, batch, r.op, b) && batch[r] == AnswerOf(CreatedIn(chain[b], b, r.op));
    }
  }

  /** An input on which they differ: two requests for one output, the later born after its block. */
  lemma {:induction false} LaterBirthHidesOutput() returns (chain: seq<Block>, batch: map<Request, Answer>, r: Request)
    ensures r in batch && |chain| == 2 && BatchAnswer(chain, 2, batch, r) && batch[r] != Naive(chain, 2, r)
  {
    var op := OutPoint(7, 0);
    chain := [Block(0, [Tx(7, [], [5])]), Block(1, [])];
    r := Request(0, op, 1, 0);
    var late := Request(1, op, 1, 1);
    batch := map[r := NotFound, late := NotFound];
    assert SpendIn(chain[0].txs, 1, 0, op).None? && SpendIn(chain[1].txs, 0, 1, op).None?;
    assert FirstSpend(chain, 0, 1, op).None? && FirstSpend(chain, 0, 2, op).None?;
    assert FirstSpend(chain, 1, 2, op).None?;
    assert CreatedIn(chain[1], 1, op).None?;
    assert TxIndex(chain[0].txs, 1, 7) == Some(0);
    assert Unspent(chain, 2, batch, op, late) && LatestBirth(chain, 2, batch, op, 1);
  }
}
