/**
 * Compact-block relay between two nodes (node/cmpctblock.go): a block is announced by the short
 * ids of its transactions, rebuilt from the receiver's mempool, and completed by asking for what
 * is missing. This module holds the messages, what each step computes, and the round trip.
 */
module CompactBlock {
  import opened Chain

  datatype Tx = Tx(wtxid: int, size: nat)
  datatype BlockHash = BlockHash(id: int)
  /** The 80-byte header with the hash it has, the certificate that travels with it aside. */
  datatype BlockHeader = BlockHeader(hash: BlockHash, prev: BlockHash, certificate: int)
  datatype Block = Block(header: BlockHeader, auxPow: int, txs: seq<Tx>)
  datatype Prefilled = Prefilled(index: nat, tx: Tx)
  datatype Compact =
    Compact(header: BlockHeader, auxPow: int, nonce: int, shortIds: seq<int>, prefilled: seq<Prefilled>)

  /** The short id of a transaction under the key of a block header and a nonce. */
  type ShortId = (BlockHeader, int, int) -> int

  const MAX_MESSAGE_PAYLOAD: nat := 1024 * 1024 * 32

  // ------------------------------------------------------------------ building

  /** The compact form: the coinbase in full, every other transaction as a short id. */
  function Build(sid: ShortId, block: Block, nonce: int): Compact
    requires 0 < |block.txs|
  {
    Compact(block.header, block.auxPow, nonce,
            seq(|block.txs| - 1, i requires 0 <= i < |block.txs| - 1 =>
              sid(block.header, nonce, block.txs[i + 1].wtxid)),
            [Prefilled(0, block.txs[0])])
  }

  method BuildCompactBlock(sid: ShortId, block: Option<Block>, nonce: int) returns (cb: Option<Compact>)
    ensures cb.None? <==> block.None? || block.value.txs == []
    ensures cb.Some? ==> cb.value == Build(sid, block.value, nonce)
  {
    if block.None? || |block.value.txs| == 0 {
      return None;
    }
    var b := block.value;
    var shortIds := [];
    for i := 1 to |b.txs|
      invariant |shortIds| == i - 1
      invariant forall j :: 0 <= j < i - 1 ==> shortIds[j] == sid(b.header, nonce, b.txs[j + 1].wtxid)
    {
      shortIds := shortIds + [sid(b.header, nonce, b.txs[i].wtxid)];
    }
    return Some(Compact(b.header, b.auxPow, nonce, shortIds, [Prefilled(0, b.txs[0])]));
  }

  // ------------------------------------------------------------------ rebuilding

  function Total(cb: Compact): nat { |cb.shortIds| + |cb.prefilled| }

  ghost function IndexSet(prefilled: seq<Prefilled>): set<nat> {
    if prefilled == [] then {} else IndexSet(prefilled[..|prefilled| - 1]) + {prefilled[|prefilled| - 1].index}
  }

  /** Prefilled indexes are in range and none is given twice. */
  ghost predicate Sound(cb: Compact) {
    && (forall i :: 0 <= i < |cb.prefilled| ==> cb.prefilled[i].index < Total(cb))
    && (forall i, j :: 0 <= i < j < |cb.prefilled| ==> cb.prefilled[i].index != cb.prefilled[j].index)
  }

  /** How many of the positions below i are not prefilled. */
  ghost function Free(at: set<nat>, i: nat): nat {
    if i == 0 then 0 else Free(at, i - 1) + (if i - 1 in at then 0 else 1)
  }

  /** The transaction prefilled at a position; the last one counts. */
  function PrefilledAt(prefilled: seq<Prefilled>, i: nat): Option<Tx> {
    if prefilled == [] then None
    else if prefilled[|prefilled| - 1].index == i then Some(prefilled[|prefilled| - 1].tx)
    else PrefilledAt(prefilled[..|prefilled| - 1], i)
  }

  /** The mempool transaction that a short id finds; the last one counts. */
  function Winner(sid: ShortId, header: BlockHeader, nonce: int, pool: seq<Tx>, id: int): Option<Tx> {
    if pool == [] then None
    else if sid(header, nonce, pool[|pool| - 1].wtxid) == id then Some(pool[|pool| - 1])
    else Winner(sid, header, nonce, pool[..|pool| - 1], id)
  }

  /** What slot i of the rebuilt block holds before anything is asked for. The short id of a slot
      is the one numbered by the free positions below it. */
  ghost function Slot(sid: ShortId, cb: Compact, pool: seq<Tx>, i: nat): Option<Tx> {
    if i in IndexSet(cb.prefilled) then PrefilledAt(cb.prefilled, i)
    else
      var k := Free(IndexSet(cb.prefilled), i);
      if k < |cb.shortIds| then Winner(sid, cb.header, cb.nonce, pool, cb.shortIds[k]) else None
  }

  /** The slots below n that are empty, in order. */
  ghost function MissingBelow(sid: ShortId, cb: Compact, pool: seq<Tx>, n: nat): seq<nat> {
    if n == 0 then []
    else MissingBelow(sid, cb, pool, n - 1) + (if Slot(sid, cb, pool, n - 1).None? then [n - 1] else [])
  }

  lemma {:induction false} InIndexSet(prefilled: seq<Prefilled>, i: nat)
    ensures i in IndexSet(prefilled) <==> PrefilledAt(prefilled, i).Some?
    ensures i in IndexSet(prefilled) <==> exists j :: 0 <= j < |prefilled| && prefilled[j].index == i
  {
    if prefilled != [] {
      var before := prefilled[..|prefilled| - 1];
      InIndexSet(before, i);
      if j :| 0 <= j < |before| && before[j].index == i { assert prefilled[j].index == i; }
      if j :| 0 <= j < |prefilled| && prefilled[j].index == i { assert j < |before| ==> before[j].index == i; }
    }
  }

  /** There are as many prefilled positions as prefilled transactions exactly when none is repeated. */
  lemma {:induction false} IndexCount(prefilled: seq<Prefilled>)
    ensures |IndexSet(prefilled)| <= |prefilled|
    ensures |IndexSet(prefilled)| == |prefilled| <==>
      forall i, j :: 0 <= i < j < |prefilled| ==> prefilled[i].index != prefilled[j].index
  {
    if prefilled != [] {
      var last := |prefilled| - 1;
      var before := prefilled[..last];
      IndexCount(before);
      InIndexSet(before, prefilled[last].index);
      if |IndexSet(prefilled)| == |prefilled| {
        forall i, j | 0 <= i < j < |prefilled| ensures prefilled[i].index != prefilled[j].index {
          assert before[i].index == prefilled[i].index;
          if j < last { assert before[j].index == prefilled[j].index; }
        }
      }
      if i :| 0 <= i < last && prefilled[i].index == prefilled[last].index {
        assert before[i].index == prefilled[last].index;
      }
    }
  }

  lemma {:induction false} FreeCount(at: set<nat>, n: nat)
    requires forall i :: i in at ==> i < n
    ensures Free(at, n) + |at| == n
  {
    if n == 0 {
      assert at == {};
    } else if n - 1 in at {
      FreeCount(at - {n - 1}, n - 1);
      FreeSame(at, at - {n - 1}, n - 1);
    } else {
      FreeCount(at, n - 1);
    }
  }

  lemma {:induction false} FreeSame(a: set<nat>, b: set<nat>, n: nat)
    requires forall i :: 0 <= i < n ==> (i in a <==> i in b)
    ensures Free(a, n) == Free(b, n)
  {
    if 0 < n { FreeSame(a, b, n - 1); }
  }

  lemma {:induction false} FreeMono(at: set<nat>, i: nat, j: nat)
    requires i <= j
    ensures Free(at, i) <= Free(at, j) && (i < j && i !in at ==> Free(at, i) < Free(at, j))
  {
    if i < j { FreeMono(at, i, j - 1); }
  }

  /** If all prefilled indexes are in range: the short ids suffice for the free positions exactly
      when no index is repeated, and then every short id has its slot and none is left over. */
  lemma {:induction false} ShortIdsSuffice(cb: Compact)
    requires forall i :: 0 <= i < |cb.prefilled| ==> cb.prefilled[i].index < Total(cb)
    ensures Free(IndexSet(cb.prefilled), Total(cb)) <= |cb.shortIds| <==> Sound(cb)
    ensures Sound(cb) ==> Free(IndexSet(cb.prefilled), Total(cb)) == |cb.shortIds|
  {
    var at := IndexSet(cb.prefilled);
    forall i | i in at ensures i < Total(cb) { InIndexSet(cb.prefilled, i); }
    FreeCount(at, Total(cb));
    IndexCount(cb.prefilled);
  }

  /** Every short id numbers exactly one free position. */
  lemma {:induction false} ShortIdSlot(at: set<nat>, n: nat, k: nat) returns (i: nat)
    requires k < Free(at, n)
    ensures i < n && i !in at && Free(at, i) == k
    ensures forall j :: 0 <= j < n && j !in at && Free(at, j) == k ==> j == i
  {
    if Free(at, n - 1) == k {
      i := n - 1;
    } else {
      i := ShortIdSlot(at, n - 1, k);
    }
    forall j | 0 <= j < n && j !in at && Free(at, j) == k ensures j == i {
      if j < i { FreeMono(at, j, i); }
      if i < j { FreeMono(at, i, j); }
    }
  }

  ghost predicate StepUp(s: seq<nat>, i: nat)
    requires 0 < i < |s|
  {
    s[i - 1] < s[i]
  }

  ghost predicate Increasing(s: seq<nat>) {
    forall i :: 0 < i < |s| ==> StepUp(s, i)
  }

  lemma {:induction false} IncreasingFar(s: seq<nat>, i: nat, j: nat)
    requires Increasing(s) && i < j < |s|
    ensures s[i] < s[j]
  {
    assert StepUp(s, j);
    if i < j - 1 { IncreasingFar(s, i, j - 1); }
  }

  lemma {:induction false} IncreasingMore(s: seq<nat>, x: nat)
    ensures Increasing(s + [x]) <==> Increasing(s) && (s != [] ==> s[|s| - 1] < x)
  {
    var t := s + [x];
    assert forall i :: 0 < i < |s| ==> (StepUp(t, i) <==> StepUp(s, i));
    assert s != [] ==> (StepUp(t, |s|) <==> s[|s| - 1] < x);
  }

  /** The missing list is strictly increasing and in range, and lists exactly the empty slots. */
  lemma {:induction false} MissingIs(sid: ShortId, cb: Compact, pool: seq<Tx>, n: nat)
    ensures var missing := MissingBelow(sid, cb, pool, n);
      Increasing(missing) && forall i: nat :: i in missing <==> i < n && Slot(sid, cb, pool, i).None?
  {
    if 0 < n {
      MissingIs(sid, cb, pool, n - 1);
      var before := MissingBelow(sid, cb, pool, n - 1);
      assert forall i :: 0 <= i < |before| ==> before[i] in before;
      var missing := MissingBelow(sid, cb, pool, n);
      assert missing == if Slot(sid, cb, pool, n - 1).None? then before + [n - 1] else before;
      IncreasingMore(before, n - 1);
      forall i: nat ensures i in missing <==> i < n && Slot(sid, cb, pool, i).None? {
        assert i in missing <==> i in before || (i == n - 1 && Slot(sid, cb, pool, i).None?);
      }
    }
  }

  // ------------------------------------------------------------------ asking for what is missing

  ghost predicate InRange(indexes: seq<nat>, n: nat) {
    forall i :: 0 <= i < |indexes| ==> indexes[i] < n
  }

  /** The transactions at the given indexes. */
  function Picked(txs: seq<Tx>, indexes: seq<nat>): (r: seq<Tx>)
    requires forall i :: 0 <= i < |indexes| ==> indexes[i] < |txs|
    ensures |r| == |indexes| && forall i :: 0 <= i < |indexes| ==> r[i] == txs[indexes[i]]
  {
    seq(|indexes|, i requires 0 <= i < |indexes| => txs[indexes[i]])
  }

  function Bytes(txs: seq<Tx>): nat {
    if txs == [] then 0 else Bytes(txs[..|txs| - 1]) + txs[|txs| - 1].size
  }

  lemma {:induction false} BytesMono(txs: seq<Tx>, n: nat)
    requires n <= |txs|
    ensures Bytes(txs[..n]) <= Bytes(txs)
    decreases |txs|
  {
    if n < |txs| {
      assert txs[..|txs| - 1][..n] == txs[..n];
      BytesMono(txs[..|txs| - 1], n);
    } else {
      assert txs[..n] == txs;
    }
  }

  /** Increasing indexes below n are at most n. */
  lemma {:induction false} IncreasingFits(indexes: seq<nat>, n: nat)
    requires Increasing(indexes) && InRange(indexes, n)
    ensures |indexes| <= n
  {
    if indexes != [] {
      var last := |indexes| - 1;
      assert indexes == indexes[..last] + [indexes[last]];
      IncreasingMore(indexes[..last], indexes[last]);
      forall i | 0 <= i < last ensures indexes[..last][i] < indexes[last] { IncreasingFar(indexes, i, last); }
      IncreasingFits(indexes[..last], indexes[last]);
    }
  }

  /** What the first n indexes must satisfy to go on, and what they pick. */
  ghost predicate GoodBelow(txs: seq<Tx>, indexes: seq<nat>, n: nat)
    requires n <= |indexes|
  {
    && Increasing(indexes[..n]) && InRange(indexes[..n], |txs|)
    && Bytes(Picked(txs, indexes[..n])) <= MAX_MESSAGE_PAYLOAD
  }

  lemma {:induction false} GoodMore(txs: seq<Tx>, indexes: seq<nat>, n: nat)
    requires n < |indexes| && Increasing(indexes[..n]) && InRange(indexes[..n], |txs|)
    ensures Increasing(indexes[..n + 1]) && InRange(indexes[..n + 1], |txs|) <==>
      indexes[n] < |txs| && (0 < n ==> indexes[n - 1] < indexes[n])
    ensures indexes[n] < |txs| ==> InRange(indexes[..n + 1], |txs|)
    ensures indexes[n] < |txs| ==>
      && Picked(txs, indexes[..n + 1]) == Picked(txs, indexes[..n]) + [txs[indexes[n]]]
      && Bytes(Picked(txs, indexes[..n + 1])) == Bytes(Picked(txs, indexes[..n])) + txs[indexes[n]].size
  {
    var before, after := indexes[..n], indexes[..n + 1];
    assert after == before + [indexes[n]];
    IncreasingMore(before, indexes[n]);
    if indexes[n] < |txs| {
      var picked := Picked(txs, before) + [txs[indexes[n]]];
      assert picked[..|picked| - 1] == Picked(txs, before);
    }
  }

  /** A good request is good from the start on. */
  lemma {:induction false} GoodPrefix(txs: seq<Tx>, indexes: seq<nat>, n: nat)
    requires n <= |indexes| && Increasing(indexes) && InRange(indexes, |txs|)
    requires Bytes(Picked(txs, indexes)) <= MAX_MESSAGE_PAYLOAD
    ensures GoodBelow(txs, indexes, n)
  {
    assert Picked(txs, indexes)[..n] == Picked(txs, indexes[..n]);
    assert forall i :: 0 < i < n ==> (StepUp(indexes[..n], i) <==> StepUp(indexes, i));
    BytesMono(Picked(txs, indexes), n);
  }

  ghost predicate GoodRequest(block: Option<Block>, indexes: seq<nat>) {
    && block.Some? && Increasing(indexes) && InRange(indexes, |block.value.txs|)
    && Bytes(Picked(block.value.txs, indexes)) <= MAX_MESSAGE_PAYLOAD
  }

  /** Answers a request for transactions of a block: exactly when the indexes increase strictly,
      are in range and the transactions fit one message. */
  method OnGetBlockTxn(block: Option<Block>, indexes: seq<nat>) returns (r: Option<seq<Tx>>)
    ensures r.Some? <==> GoodRequest(block, indexes)
    ensures r.Some? ==> r.value == Picked(block.value.txs, indexes)
  {
    if block.None? {
      return None;
    }
    var blockTxs := block.value.txs;
    if |indexes| > |blockTxs| {
      if Increasing(indexes) && InRange(indexes, |blockTxs|) { IncreasingFits(indexes, |blockTxs|); }
      return None;
    }
    var txns, lastIdx, totalBytes := [], -1, 0;
    for n := 0 to |indexes|
      invariant GoodBelow(blockTxs, indexes, n) && lastIdx == if n == 0 then -1 else indexes[n - 1]
      invariant txns == Picked(blockTxs, indexes[..n]) && totalBytes == Bytes(txns)
    {
      var idx := indexes[n];
      GoodMore(blockTxs, indexes, n);
      if GoodRequest(block, indexes) { GoodPrefix(blockTxs, indexes, n + 1); }
      if idx >= |blockTxs| || idx <= lastIdx {
        return None;
      }
      lastIdx := idx;
      totalBytes := totalBytes + blockTxs[idx].size;
      if totalBytes > MAX_MESSAGE_PAYLOAD {
        return None;
      }
      txns := txns + [blockTxs[idx]];
    }
    assert indexes[..|indexes|] == indexes;
    return Some(txns);
  }

  /** The slots after the requested transactions were put in. */
  function Completed(slots: seq<Option<Tx>>, missing: seq<nat>, txs: seq<Tx>): (r: seq<Option<Tx>>)
    requires |missing| == |txs| && forall i :: 0 <= i < |missing| ==> missing[i] < |slots|
    ensures |r| == |slots|
  {
    if missing == [] then slots
    else
      var last := |missing| - 1;
      Completed(slots, missing[..last], txs[..last])[missing[last] := Some(txs[last])]
  }

  lemma {:induction false} CompletedAt(slots: seq<Option<Tx>>, missing: seq<nat>, txs: seq<Tx>, i: nat)
    requires |missing| == |txs| && InRange(missing, |slots|) && Increasing(missing) && i < |slots|
    ensures i !in missing ==> Completed(slots, missing, txs)[i] == slots[i]
    ensures forall k :: 0 <= k < |missing| && missing[k] == i ==> Completed(slots, missing, txs)[i] == Some(txs[k])
  {
    if i !in missing { CompletedKeeps(slots, missing, txs, i); }
    forall k | 0 <= k < |missing| && missing[k] == i ensures Completed(slots, missing, txs)[i] == Some(txs[k]) {
      CompletedFills(slots, missing, txs, k);
    }
  }

  lemma {:induction false} CompletedKeeps(slots: seq<Option<Tx>>, missing: seq<nat>, txs: seq<Tx>, i: nat)
    requires |missing| == |txs| && InRange(missing, |slots|) && i < |slots| && i !in missing
    ensures Completed(slots, missing, txs)[i] == slots[i]
  {
    if missing != [] {
      var last := |missing| - 1;
      CompletedKeeps(slots, missing[..last], txs[..last], i);
    }
  }

  lemma {:induction false} CompletedFills(slots: seq<Option<Tx>>, missing: seq<nat>, txs: seq<Tx>, k: nat)
    requires |missing| == |txs| && InRange(missing, |slots|) && Increasing(missing) && k < |missing|
    ensures Completed(slots, missing, txs)[missing[k]] == Some(txs[k])
    decreases |missing|
  {
    var last := |missing| - 1;
    if k < last {
      var before := missing[..last];
      assert missing == before + [missing[last]];
      IncreasingMore(before, missing[last]);
      CompletedFills(slots, before, txs[..last], k);
      IncreasingFar(missing, k, last);
    }
  }

  // ------------------------------------------------------------------ the round trip

  /** All slots of the rebuilt block. */
  ghost function Slots(sid: ShortId, cb: Compact, pool: seq<Tx>): (r: seq<Option<Tx>>)
    ensures |r| == Total(cb) && forall i :: 0 <= i < Total(cb) ==> r[i] == Slot(sid, cb, pool, i)
  {
    seq(Total(cb), i requires 0 <= i < Total(cb) => Slot(sid, cb, pool, i))
  }

  /** In the compact form of a block slot 0 is the coinbase and slot i what its short id finds. */
  lemma {:induction false} BuiltSlot(sid: ShortId, block: Block, nonce: int, pool: seq<Tx>, i: nat)
    requires i < |block.txs|
    ensures var cb := Build(sid, block, nonce);
      && Total(cb) == |block.txs|
      && Slot(sid, cb, pool, i) ==
         if i == 0 then Some(block.txs[0])
         else Winner(sid, block.header, nonce, pool, sid(block.header, nonce, block.txs[i].wtxid))
  {
    var cb := Build(sid, block, nonce);
    assert cb.prefilled[..0] == [];
    assert IndexSet(cb.prefilled) == {0};
    if 0 < i { FreeButFirst(i); }
  }

  lemma {:induction false} FreeButFirst(i: nat)
    requires 0 < i
    ensures Free({0}, i) == i - 1
  {
    if 1 < i { FreeButFirst(i - 1); }
  }

  /** Slot i is filled from the mempool, if at all, with the transaction of the block. */
  ghost predicate NoCollision(sid: ShortId, block: Block, nonce: int, pool: seq<Tx>, i: nat)
    requires i < |block.txs|
  {
    var w := Winner(sid, block.header, nonce, pool, sid(block.header, nonce, block.txs[i].wtxid));
    w.None? || w.value == block.txs[i]
  }

  /** Build, rebuild from the mempool, ask for the missing, complete: the indexes asked for are
      acceptable to the other side, and the result is the block's own list exactly when no short
      id finds another transaction in the mempool. */
  lemma {:induction false} RoundTrip(sid: ShortId, block: Block, nonce: int, pool: seq<Tx>)
    requires 0 < |block.txs|
    ensures var cb := Build(sid, block, nonce);
      var missing := MissingBelow(sid, cb, pool, Total(cb));
      && Sound(cb) && Increasing(missing) && InRange(missing, |block.txs|) && |block.txs| == Total(cb)
      && var got := Completed(Slots(sid, cb, pool), missing, Picked(block.txs, missing));
         && (forall i :: 0 <= i < |got| ==> got[i].Some?)
         && ((forall i :: 0 <= i < |block.txs| ==> got[i] == Some(block.txs[i])) <==>
             (forall i :: 1 <= i < |block.txs| ==> NoCollision(sid, block, nonce, pool, i)))
  {
    var cb := Build(sid, block, nonce);
    BuiltSlot(sid, block, nonce, pool, 0);
    var missing := MissingBelow(sid, cb, pool, Total(cb));
    MissingIs(sid, cb, pool, Total(cb));
    assert forall k :: 0 <= k < |missing| ==> missing[k] in missing;
    var slots := Slots(sid, cb, pool);
    var got := Completed(slots, missing, Picked(block.txs, missing));
    forall i | 0 <= i < |block.txs|
      ensures got[i].Some? && (got[i] == Some(block.txs[i]) <==> i == 0 || NoCollision(sid, block, nonce, pool, i))
    {
      CompletedAt(slots, missing, Picked(block.txs, missing), i);
      BuiltSlot(sid, block, nonce, pool, i);
      if i in missing { var k :| 0 <= k < |missing| && missing[k] == i; }
    }
  }
}
