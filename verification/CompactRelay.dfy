/**
 * The receiving side of compact-block relay (node/cmpctblock.go): the handlers of one peer and
 * the reconstructions it has pending. Times are in milliseconds and given by the caller, as are
 * the blocks the chain has and the verdict of the sync manager on a block.
 */
module CompactRelay {
  import opened Chain
  import opened CompactBlock

  const MAX_PENDING: nat := 16
  const PENDING_TTL := 30000
  const MIN_INTERVAL := 1000

  datatype Pending = Pending(header: BlockHeader, auxPow: int, txns: seq<Option<Tx>>, missing: seq<nat>, created: nat)
  datatype Action =
    | RequestFull(hash: BlockHash)
    | Process(block: Block)
    | GetBlockTxn(hash: BlockHash, missing: seq<nat>)

  /** The reconstructions not older than the time limit. */
  function Fresh(pending: map<BlockHash, Pending>, now: nat): map<BlockHash, Pending> {
    map h | h in pending && now - pending[h].created <= PENDING_TTL :: pending[h]
  }

  lemma {:induction false} FreshIsFewer(pending: map<BlockHash, Pending>, now: nat)
    ensures |Fresh(pending, now)| <= |pending|
  {
    SubsetIsFewer(Fresh(pending, now).Keys, pending.Keys);
  }

  /** The transactions of slots, none of which is empty. */
  function Filled(slots: seq<Option<Tx>>): (r: seq<Tx>)
    requires forall i :: 0 <= i < |slots| ==> slots[i].Some?
    ensures |r| == |slots| && forall i :: 0 <= i < |slots| ==> Some(r[i]) == slots[i]
  {
    seq(|slots|, i requires 0 <= i < |slots| => slots[i].value)
  }

  /** Whether every slot is filled. */
  ghost predicate Full(slots: seq<Option<Tx>>) {
    forall i :: 0 <= i < |slots| ==> slots[i].Some?
  }

  /** missing lists the empty slots, in order and each once, and there are some. */
  ghost predicate Gaps(slots: seq<Option<Tx>>, missing: seq<nat>) {
    && missing != [] && Increasing(missing) && InRange(missing, |slots|)
    && forall i: nat :: i < |slots| ==> (slots[i].None? <==> i in missing)
  }

  /** Filling the gaps fills every slot. */
  lemma {:induction false} CompletedIsFull(slots: seq<Option<Tx>>, missing: seq<nat>, txs: seq<Tx>)
    requires Gaps(slots, missing) && |missing| == |txs|
    ensures Full(Completed(slots, missing, txs))
  {
    forall i | 0 <= i < |slots| ensures Completed(slots, missing, txs)[i].Some? {
      CompletedAt(slots, missing, txs, i);
      if i in missing { var k :| 0 <= k < |missing| && missing[k] == i; }
    }
  }

  /** Handing on a rebuilt block, and asking for the full one if it is refused. */
  function Outcome(block: Block, accepts: Block -> bool, have: BlockHash -> bool): seq<Action> {
    if accepts(block) || have(block.header.hash) then [Process(block)]
    else [Process(block), RequestFull(block.header.hash)]
  }

  /** Puts the prefilled transactions in place. ok tells that all indexes are in range. */
  method PlacePrefilled(cb: Compact, txns: array<Option<Tx>>) returns (ok: bool, at: set<nat>)
    requires txns.Length == Total(cb) && forall i :: 0 <= i < txns.Length ==> txns[i] == None
    modifies txns
    ensures ok <==> forall i :: 0 <= i < |cb.prefilled| ==> cb.prefilled[i].index < Total(cb)
    ensures ok ==>
      at == IndexSet(cb.prefilled) && forall i :: 0 <= i < txns.Length ==> txns[i] == PrefilledAt(cb.prefilled, i)
  {
    at := {};
    for n := 0 to |cb.prefilled|
      invariant forall i :: 0 <= i < n ==> cb.prefilled[i].index < Total(cb)
      invariant at == IndexSet(cb.prefilled[..n])
      invariant forall i :: 0 <= i < txns.Length ==> txns[i] == PrefilledAt(cb.prefilled[..n], i)
    {
      var p := cb.prefilled[n];
      if p.index >= Total(cb) {
        return false, at;
      }
      assert cb.prefilled[..n + 1][..n] == cb.prefilled[..n];
      txns[p.index] := Some(p.tx);
      at := at + {p.index};
    }
    assert cb.prefilled[..|cb.prefilled|] == cb.prefilled;
    ok := true;
  }

  /** The index from short id to mempool transaction. */
  method IndexPool(sid: ShortId, cb: Compact, pool: seq<Tx>) returns (index: map<int, Tx>)
    ensures forall id :: var w := Winner(sid, cb.header, cb.nonce, pool, id);
      (id in index <==> w.Some?) && (w.Some? ==> index[id] == w.value)
  {
    index := map[];
    for n := 0 to |pool|
      invariant forall id :: var w := Winner(sid, cb.header, cb.nonce, pool[..n], id);
        (id in index <==> w.Some?) && (w.Some? ==> index[id] == w.value)
    {
      assert pool[..n + 1][..n] == pool[..n];
      index := index[sid(cb.header, cb.nonce, pool[n].wtxid) := pool[n]];
    }
    assert pool[..|pool|] == pool;
  }

  /** Fills the other slots in order from the short ids. It runs out of short ids exactly when
      there are more free positions than short ids. */
  method FillSlots(sid: ShortId, cb: Compact, pool: seq<Tx>, txns: array<Option<Tx>>, at: set<nat>, index: map<int, Tx>)
    returns (ok: bool, missing: seq<nat>)
    requires txns.Length == Total(cb) && at == IndexSet(cb.prefilled)
    requires forall i :: 0 <= i < txns.Length ==> txns[i] == PrefilledAt(cb.prefilled, i)
    requires forall id :: var w := Winner(sid, cb.header, cb.nonce, pool, id);
      (id in index <==> w.Some?) && (w.Some? ==> index[id] == w.value)
    modifies txns
    ensures ok <==> Free(at, Total(cb)) <= |cb.shortIds|
    ensures ok ==> txns[..] == Slots(sid, cb, pool) && missing == MissingBelow(sid, cb, pool, Total(cb))
  {
    missing := [];
    var sidPos := 0;
    for i := 0 to Total(cb)
      invariant sidPos == Free(at, i) <= |cb.shortIds| && missing == MissingBelow(sid, cb, pool, i)
      invariant forall j :: 0 <= j < i ==> txns[j] == Slot(sid, cb, pool, j)
      invariant forall j :: i <= j < txns.Length ==> txns[j] == PrefilledAt(cb.prefilled, j)
    {
      InIndexSet(cb.prefilled, i);
      if i in at {
        continue;
      }
      if sidPos >= |cb.shortIds| {
        FreeMono(at, i + 1, Total(cb));
        return false, missing;
      }
      if cb.shortIds[sidPos] in index {
        txns[i] := Some(index[cb.shortIds[sidPos]]);
      } else {
        missing := missing + [i];
      }
      sidPos := sidPos + 1;
    }
    ok := true;
  }

  /** Rebuilds what can be rebuilt: exactly when the message is sound, and then into the slots. */
  method Rebuild(sid: ShortId, cb: Compact, pool: seq<Tx>) returns (ok: bool, slots: seq<Option<Tx>>, missing: seq<nat>)
    ensures ok <==> Sound(cb)
    ensures ok ==> slots == Slots(sid, cb, pool) && missing == MissingBelow(sid, cb, pool, Total(cb))
    ensures ok ==> if missing == [] then Full(slots) else Gaps(slots, missing)
  {
    var txns := new Option<Tx>[Total(cb)](i => None);
    var at;
    slots, missing := [], [];
    ok, at := PlacePrefilled(cb, txns);
    if !ok {
      return;
    }
    ShortIdsSuffice(cb);
    var index := IndexPool(sid, cb, pool);
    ok, missing := FillSlots(sid, cb, pool, txns, at, index);
    slots := txns[..];
    MissingAndFull(sid, cb, pool);
  }

  lemma {:induction false} MissingAndFull(sid: ShortId, cb: Compact, pool: seq<Tx>)
    ensures var missing := MissingBelow(sid, cb, pool, Total(cb));
      if missing == [] then Full(Slots(sid, cb, pool)) else Gaps(Slots(sid, cb, pool), missing)
  {
    var missing := MissingBelow(sid, cb, pool, Total(cb));
    MissingIs(sid, cb, pool, Total(cb));
    assert forall k :: 0 <= k < |missing| ==> missing[k] in missing;
    forall i: nat | i < Total(cb) ensures Slots(sid, cb, pool)[i].None? <==> i in missing {}
  }

  class Receiver {
    const sid: ShortId
    const maxTxPerBlock: nat
    var pending: map<BlockHash, Pending>
    var lastTime: Option<nat>

    constructor (sid: ShortId, maxTxPerBlock: nat)
      ensures Valid() && this.sid == sid && this.maxTxPerBlock == maxTxPerBlock
    {
      this.sid, this.maxTxPerBlock := sid, maxTxPerBlock;
      pending, lastTime := map[], None;
    }

    /** At most sixteen reconstructions are pending, each under its own hash and with its gaps listed. */
    ghost predicate Valid()
      reads this
    {
      |pending| <= MAX_PENDING &&
      forall h :: h in pending ==>
        pending[h].header.hash == h && Gaps(pending[h].txns, pending[h].missing)
    }

    method EvictStale(now: nat)
      requires Valid()
      modifies this`pending
      ensures Valid() && pending == Fresh(old(pending), now)
    {
      FreshIsFewer(pending, now);
      var left: set<BlockHash> := pending.Keys;
      ghost var start := pending;
      while left != {}
        invariant left <= start.Keys && pending.Keys <= start.Keys
        invariant forall h :: h in start ==> (h in pending <==> h in left || now - start[h].created <= PENDING_TTL)
        invariant forall h :: h in pending ==> pending[h] == start[h]
        decreases left
      {
        var h :| h in left;
        left := left - {h};
        if now - pending[h].created > PENDING_TTL {
          pending := pending - {h};
        }
      }
      assert pending == Fresh(start, now);
    }

    /** Hands on a list of slots as a block, unless one is empty. */
    method AssembleAndProcess(
        header: BlockHeader, auxPow: int, txns: seq<Option<Tx>>, accepts: Block -> bool, have: BlockHash -> bool)
      returns (out: seq<Action>)
      ensures out == if Full(txns) then Outcome(Block(header, auxPow, Filled(txns)), accepts, have) else []
    {
      var txs := [];
      for i := 0 to |txns|
        invariant |txs| == i && forall j :: 0 <= j < i ==> Some(txs[j]) == txns[j]
      {
        if txns[i].None? {
          return [];
        }
        txs := txs + [txns[i].value];
      }
      assert txs == Filled(txns);
      var block := Block(header, auxPow, txs);
      out := [Process(block)];
      if !accepts(block) && !have(header.hash) {
        out := out + [RequestFull(header.hash)];
      }
    }

    /** An announced compact block. */
    method OnCmpctBlock(cb: Compact, now: nat, have: BlockHash -> bool, pool: seq<Tx>, accepts: Block -> bool)
      returns (out: seq<Action>)
      requires Valid()
      modifies this
      ensures Valid()
      ensures (lastTime, pending, out) ==
        Reaction(sid, maxTxPerBlock, old(lastTime), old(pending), cb, now, have, pool, accepts)
    {
      var hash := cb.header.hash;
      if have(hash) {
        return [];
      }
      if !have(cb.header.prev) {
        return [RequestFull(hash)];
      }
      if lastTime.Some? && now - lastTime.value < MIN_INTERVAL {
        return [];
      }
      lastTime := Some(now);
      EvictStale(now);
      out := Reconstruct(cb, now, have, pool, accepts);
    }

    /** The part of the handler after its cheap checks. */
    method Reconstruct(cb: Compact, now: nat, have: BlockHash -> bool, pool: seq<Tx>, accepts: Block -> bool)
      returns (out: seq<Action>)
      requires Valid()
      modifies this`pending
      ensures Valid()
      ensures (pending, out) == Reconstruction(sid, maxTxPerBlock, old(pending), cb, now, have, pool, accepts)
    {
      if Total(cb) == 0 || Total(cb) > maxTxPerBlock {
        return [];
      }
      var ok, slots, missing := Rebuild(sid, cb, pool);
      if !ok {
        return [RequestFull(cb.header.hash)];
      }
      if |missing| == 0 {
        out := AssembleAndProcess(cb.header, cb.auxPow, slots, accepts, have);
        return;
      }
      if |pending| >= MAX_PENDING {
        return [RequestFull(cb.header.hash)];
      }
      pending := pending[cb.header.hash := Pending(cb.header, cb.auxPow, slots, missing, now)];
      return [GetBlockTxn(cb.header.hash, missing)];
    }

    /** The transactions asked for: the reconstruction is completed, and no slot stays empty. */
    method OnBlockTxn(hash: BlockHash, txs: seq<Tx>, now: nat, have: BlockHash -> bool, accepts: Block -> bool)
      returns (out: seq<Action>)
      requires Valid()
      modifies this`pending
      ensures Valid() && pending == Fresh(old(pending) - {hash}, now)
      ensures hash !in old(pending) ==> out == []
      ensures hash in old(pending) && |txs| != |old(pending)[hash].missing| ==>
        out == if have(hash) then [] else [RequestFull(hash)]
      ensures hash in old(pending) && |txs| == |old(pending)[hash].missing| ==>
        var p := old(pending)[hash];
        var slots := Completed(p.txns, p.missing, txs);
        Full(slots) && out == Outcome(Block(p.header, p.auxPow, Filled(slots)), accepts, have)
    {
      var found := hash in pending;
      SubsetIsFewer((pending - {hash}).Keys, pending.Keys);
      if !found {
        assert pending - {hash} == pending;
        EvictStale(now);
        return [];
      }
      var p := pending[hash];
      pending := pending - {hash};
      EvictStale(now);
      if |txs| != |p.missing| {
        return if have(hash) then [] else [RequestFull(hash)];
      }
      CompletedIsFull(p.txns, p.missing, txs);
      var slots := PutIn(p.txns, p.missing, txs);
      out := AssembleAndProcess(p.header, p.auxPow, slots, accepts, have);
    }

    method PutIn(txns: seq<Option<Tx>>, missing: seq<nat>, txs: seq<Tx>) returns (slots: seq<Option<Tx>>)
      requires |missing| == |txs| && forall i :: 0 <= i < |missing| ==> missing[i] < |txns|
      ensures slots == Completed(txns, missing, txs)
    {
      slots := txns;
      for i := 0 to |missing|
        invariant slots == Completed(txns, missing[..i], txs[..i])
      {
        assert missing[..i + 1][..i] == missing[..i] && txs[..i + 1][..i] == txs[..i];
        slots := slots[missing[i] := Some(txs[i])];
      }
      assert missing[..|missing|] == missing && txs[..|txs|] == txs;
    }
  }

  /** What rebuilding an announced block does to the pending ones, and what is sent. */
  ghost function Reconstruction(
      sid: ShortId, maxTx: nat, pending: map<BlockHash, Pending>, cb: Compact, now: nat, have: BlockHash -> bool,
      pool: seq<Tx>, accepts: Block -> bool): (map<BlockHash, Pending>, seq<Action>)
  {
    if Total(cb) == 0 || Total(cb) > maxTx then (pending, [])
    else if !Sound(cb) then (pending, [RequestFull(cb.header.hash)])
    else
      MissingAndFull(sid, cb, pool);
      var slots, missing := Slots(sid, cb, pool), MissingBelow(sid, cb, pool, Total(cb));
      if missing == [] then (pending, Outcome(Block(cb.header, cb.auxPow, Filled(slots)), accepts, have))
      else if |pending| >= MAX_PENDING then (pending, [RequestFull(cb.header.hash)])
      else
        (pending[cb.header.hash := Pending(cb.header, cb.auxPow, slots, missing, now)],
         [GetBlockTxn(cb.header.hash, missing)])
  }

  /** What an announced compact block does to a receiver, and what it sends. */
  ghost function Reaction(
      sid: ShortId, maxTx: nat, last: Option<nat>, pending: map<BlockHash, Pending>, cb: Compact, now: nat,
      have: BlockHash -> bool, pool: seq<Tx>,
      accepts: Block -> bool): (Option<nat>, map<BlockHash, Pending>, seq<Action>)
  {
    if have(cb.header.hash) then (last, pending, [])
    else if !have(cb.header.prev) then (last, pending, [RequestFull(cb.header.hash)])
    else if last.Some? && now - last.value < MIN_INTERVAL then (last, pending, [])
    else
      var r := Reconstruction(sid, maxTx, Fresh(pending, now), cb, now, have, pool, accepts);
      (Some(now), r.0, r.1)
  }

  /** The announcement is looked at: its block is new, its parent is there, and it does not come too
      soon after the one before. */
  ghost predicate LooksAt(last: Option<nat>, cb: Compact, now: nat, have: BlockHash -> bool) {
    !have(cb.header.hash) && have(cb.header.prev) && (last.Some? ==> MIN_INTERVAL <= now - last.value)
  }

  /** The answer to every announcement. Nothing is sent exactly for a block that is there, one that
      comes too soon, and one without transactions or with too many. A block is handed on exactly if
      every slot could be filled, and then with these transactions; the full block is asked for if it
      is refused. What is missing is asked for, and kept, exactly if there is room. In all other cases
      the full block is asked for. */
  lemma {:induction false} ReactionIs(
      sid: ShortId, maxTx: nat, last: Option<nat>, pending: map<BlockHash, Pending>, cb: Compact, now: nat,
      have: BlockHash -> bool, pool: seq<Tx>, accepts: Block -> bool)
    ensures var (last', pending', out) := Reaction(sid, maxTx, last, pending, cb, now, have, pool, accepts);
      var hash, slots := cb.header.hash, Slots(sid, cb, pool);
      var looks, fits := LooksAt(last, cb, now, have), 0 < Total(cb) <= maxTx;
      var rebuilt := looks && fits && Sound(cb);
      var kept := rebuilt && !Full(slots) && |Fresh(pending, now)| < MAX_PENDING;
      && last' == (if looks then Some(now) else last)
      && (out == [] <==> have(hash) || (have(cb.header.prev) && !(looks && fits)))
      && (out != [] && out[0].Process? <==> rebuilt && Full(slots))
      && (rebuilt && Full(slots) ==>
            var block := Block(cb.header, cb.auxPow, Filled(slots));
            out == if accepts(block) then [Process(block)] else [Process(block), RequestFull(hash)])
      && (out != [] && out[0].GetBlockTxn? <==> kept)
      && (kept ==>
            && hash in pending' && out == [GetBlockTxn(hash, pending'[hash].missing)]
            && pending' - {hash} == Fresh(pending, now) - {hash} && Gaps(slots, pending'[hash].missing)
            && pending'[hash] == Pending(cb.header, cb.auxPow, slots, pending'[hash].missing, now))
      && (!kept ==> pending' == if looks then Fresh(pending, now) else pending)
      && (out != [] && out[0].RequestFull? ==> out == [RequestFull(hash)])
  {
    MissingAndFull(sid, cb, pool);
    var missing := MissingBelow(sid, cb, pool, Total(cb));
    if missing != [] { assert missing[0] in missing; }
  }

  ghost predicate Clean(sid: ShortId, block: Block, nonce: int, pool: seq<Tx>) {
    forall i :: 1 <= i < |block.txs| ==> NoCollision(sid, block, nonce, pool, i)
  }

  /** The indexes of a sent block that the receiver asks for. */
  ghost function Wanted(sid: ShortId, block: Block, nonce: int, pool: seq<Tx>): (r: seq<nat>)
    requires 0 < |block.txs|
    ensures InRange(r, |block.txs|)
  {
    Recovered(sid, block, nonce, pool);
    MissingBelow(sid, Build(sid, block, nonce), pool, |block.txs|)
  }

  /** The first answer to an announced block that passes the checks: the block rebuilt, or a request
      for what is missing, after which the other side's answer completes it. */
  lemma {:induction false} Announced(
      sid: ShortId, maxTx: nat, last: Option<nat>, pending: map<BlockHash, Pending>, block: Block, nonce: int, now: nat,
      have: BlockHash -> bool, pool: seq<Tx>, accepts: Block -> bool)
    returns (slots: seq<Option<Tx>>, missing: seq<nat>)
    requires 0 < |block.txs| <= maxTx && |Fresh(pending, now)| < MAX_PENDING
    requires !have(block.header.hash) && have(block.header.prev) && (last.Some? ==> now - last.value >= MIN_INTERVAL)
    ensures missing == Wanted(sid, block, nonce, pool) && Increasing(missing) && |slots| == |block.txs|
    ensures var got := Completed(slots, missing, Picked(block.txs, missing));
      Full(got) && (Filled(got) == block.txs <==> Clean(sid, block, nonce, pool))
    ensures var r := Reaction(sid, maxTx, last, pending, Build(sid, block, nonce), now, have, pool, accepts);
      if missing == [] then
        Full(slots) && r.2 == Outcome(Block(block.header, block.auxPow, Filled(slots)), accepts, have)
      else
        && r.2 == [GetBlockTxn(block.header.hash, missing)] && block.header.hash in r.1
        && r.1[block.header.hash] == Pending(block.header, block.auxPow, slots, missing, now)
  {
    var cb := Build(sid, block, nonce);
    slots, missing := Slots(sid, cb, pool), MissingBelow(sid, cb, pool, Total(cb));
    Recovered(sid, block, nonce, pool);
    MissingAndFull(sid, cb, pool);
  }

  lemma {:induction false} Recovered(sid: ShortId, block: Block, nonce: int, pool: seq<Tx>)
    requires 0 < |block.txs|
    ensures var cb := Build(sid, block, nonce);
      var missing := MissingBelow(sid, cb, pool, Total(cb));
      && Sound(cb) && Increasing(missing) && InRange(missing, |block.txs|) && |block.txs| == Total(cb)
      && var got := Completed(Slots(sid, cb, pool), missing, Picked(block.txs, missing));
         Full(got) && (Filled(got) == block.txs <==> Clean(sid, block, nonce, pool))
  {
    RoundTrip(sid, block, nonce, pool);
    var cb := Build(sid, block, nonce);
    var missing := MissingBelow(sid, cb, pool, Total(cb));
    SameTxs(Completed(Slots(sid, cb, pool), missing, Picked(block.txs, missing)), block.txs);
  }

  lemma {:induction false} SameTxs(got: seq<Option<Tx>>, txs: seq<Tx>)
    requires Full(got) && |got| == |txs|
    ensures Filled(got) == txs <==> forall i :: 0 <= i < |txs| ==> got[i] == Some(txs[i])
  {
    if Filled(got) == txs {
      forall i | 0 <= i < |txs| ensures got[i] == Some(txs[i]) { assert Some(Filled(got)[i]) == got[i]; }
    }
  }

  /** A block sent from one node to another: announced, asked for, answered and completed. It is
      delivered, and is the block that was sent exactly when no short id collides. */
  method Relay(
      receiver: Receiver, block: Block, nonce: int, now: nat, later: nat, have: BlockHash -> bool, pool: seq<Tx>,
      accepts: Block -> bool)
    returns (out: seq<Action>)
    requires receiver.Valid() && 0 < |block.txs| <= receiver.maxTxPerBlock
    requires Bytes(Picked(block.txs, Wanted(receiver.sid, block, nonce, pool))) <= MAX_MESSAGE_PAYLOAD
    requires !have(block.header.hash) && have(block.header.prev) && |Fresh(receiver.pending, now)| < MAX_PENDING
    requires receiver.lastTime.Some? ==> now - receiver.lastTime.value >= MIN_INTERVAL
    modifies receiver
    ensures receiver.Valid() && 0 < |out| && out[0].Process?
    ensures out[0] == Process(block) <==> Clean(receiver.sid, block, nonce, pool)
  {
    ghost var slots, missing := Announced(
      receiver.sid, receiver.maxTxPerBlock, receiver.lastTime, receiver.pending, block, nonce, now, have, pool,
      accepts);
    var cb := BuildCompactBlock(receiver.sid, Some(block), nonce);
    out := receiver.OnCmpctBlock(cb.value, now, have, pool, accepts);
    if out[0].GetBlockTxn? {
      var reply := OnGetBlockTxn(Some(block), out[0].missing);
      out := receiver.OnBlockTxn(block.header.hash, reply.value, later, have, accepts);
    }
  }
}
