/**
 * The rescan of a websocket client (node/rpcwebsocket.go): blocks are read in chunks of the best
 * chain, which may change between any two reads, and every block updates the set of unspent
 * outputs that pay the client's addresses.
 *
 * The outside world of a run is a finite list of reads, each with the best chain at its moment
 * and the state of the database; a run that uses them up ends like one whose client left.
 */
module Rescan {
  import opened Chain

  datatype Addr = Addr(name: int)
  /** A transaction: the outputs it spends, and for each of its outputs the addresses it pays. */
  datatype Tx = Tx(txid: int, ins: seq<OutPoint>, outs: seq<seq<Addr>>)

  // ------------------------------------------------------------------ one block

  ghost predicate Spends(tx: Tx, op: OutPoint) { op in tx.ins }

  /** The output is one of tx and pays a watched address. */
  ghost predicate Pays(tx: Tx, addrs: set<Addr>, op: OutPoint) {
    && op.txid == tx.txid && op.index < |tx.outs|
    && exists j :: 0 <= j < |tx.outs[op.index]| && tx.outs[op.index][j] in addrs
  }

  /** now is the unspent set after the transactions: an output is in it if it was there or was paid,
      and was not spent since. */
  ghost predicate InAfter(unspent: set<OutPoint>, addrs: set<Addr>, txs: seq<Tx>, op: OutPoint) {
    if txs == [] then op in unspent
    else
      var tx := txs[|txs| - 1];
      Pays(tx, addrs, op) || (InAfter(unspent, addrs, txs[..|txs| - 1], op) && !Spends(tx, op))
  }

  ghost predicate IsAfter(unspent: set<OutPoint>, addrs: set<Addr>, txs: seq<Tx>, now: set<OutPoint>) {
    forall op :: op in now <==> InAfter(unspent, addrs, txs, op)
  }

  /** The outputs of one transaction below n that pay a watched address are added. */
  method AddOutputs(tx: Tx, addrs: set<Addr>, before: set<OutPoint>) returns (unspent: set<OutPoint>)
    ensures forall op :: op in unspent <==> op in before || Pays(tx, addrs, op)
  {
    unspent := before;
    for i := 0 to |tx.outs|
      invariant forall op :: op in unspent <==> op in before || (op.index < i && Pays(tx, addrs, op))
    {
      var watched := false;
      for j := 0 to |tx.outs[i]|
        invariant watched <==> exists k :: 0 <= k < j && tx.outs[i][k] in addrs
        invariant forall op :: op in unspent <==>
          op in before || (op.index < i && Pays(tx, addrs, op)) || (watched && op == OutPoint(tx.txid, i))
      {
        if tx.outs[i][j] in addrs {
          watched := true;
          unspent := unspent + {OutPoint(tx.txid, i)};
        }
      }
      assert watched ==> Pays(tx, addrs, OutPoint(tx.txid, i));
    }
  }

  method RemoveInputs(tx: Tx, before: set<OutPoint>) returns (unspent: set<OutPoint>)
    ensures forall op :: op in unspent <==> op in before && !Spends(tx, op)
  {
    unspent := before;
    for i := 0 to |tx.ins|
      invariant forall op :: op in unspent <==> op in before && op !in tx.ins[..i]
    {
      if tx.ins[i] in unspent {
        unspent := unspent - {tx.ins[i]};
      }
    }
    assert tx.ins[..|tx.ins|] == tx.ins;
  }

  /** All transactions of a block, inputs before outputs. earlier are those of the blocks before. */
  method RescanBlock(
      txs: seq<Tx>, addrs: set<Addr>, before: set<OutPoint>, ghost start: set<OutPoint>, ghost earlier: seq<Tx>)
    returns (unspent: set<OutPoint>)
    requires IsAfter(start, addrs, earlier, before)
    ensures IsAfter(start, addrs, earlier + txs, unspent)
  {
    unspent := before;
    assert earlier + txs[..0] == earlier;
    for n := 0 to |txs|
      invariant IsAfter(start, addrs, earlier + txs[..n], unspent)
    {
      var kept := RemoveInputs(txs[n], unspent);
      unspent := AddOutputs(txs[n], addrs, kept);
      ghost var now := earlier + txs[..n + 1];
      assert now[..|now| - 1] == earlier + txs[..n] && now[|now| - 1] == txs[n];
    }
    assert txs[..|txs|] == txs;
  }

  // ------------------------------------------------------------------ what the unspent set is

  ghost predicate SpentIn(txs: seq<Tx>, op: OutPoint) { exists k :: 0 <= k < |txs| && Spends(txs[k], op) }

  ghost predicate PaidIn(
      txs: seq<Tx>, addrs: set<Addr>, op: OutPoint) { exists k :: 0 <= k < |txs| && Pays(txs[k], addrs, op) }

  /** Spent after position j; position -1 stands for the start. */
  ghost predicate SpentAfter(
      txs: seq<Tx>, j: int, op: OutPoint) { exists k :: 0 <= k < |txs| && j < k && Spends(txs[k], op) }

  /** An output is unspent exactly if it was there or was paid at some point and not spent since. */
  lemma {:induction false} AfterIs(unspent: set<OutPoint>, addrs: set<Addr>, txs: seq<Tx>, op: OutPoint)
    ensures InAfter(unspent, addrs, txs, op) <==>
      || (op in unspent && !SpentIn(txs, op))
      || exists j :: 0 <= j < |txs| && Pays(txs[j], addrs, op) && !SpentAfter(txs, j, op)
  {
    if txs != [] {
      var before, tx := txs[..|txs| - 1], txs[|txs| - 1];
      AfterIs(unspent, addrs, before, op);
      assert forall k :: 0 <= k < |before| ==> before[k] == txs[k];
      assert SpentIn(txs, op) <==> SpentIn(before, op) || Spends(tx, op);
      forall j | 0 <= j < |before| ensures SpentAfter(txs, j, op) <==> SpentAfter(before, j, op) || Spends(tx, op) {
        if Spends(tx, op) { assert Spends(txs[|txs| - 1], op); }
      }
      assert !SpentAfter(txs, |txs| - 1, op);
      if InAfter(unspent, addrs, txs, op) && !(op in unspent && !SpentIn(txs, op)) {
        if Pays(tx, addrs, op) {
          assert Pays(txs[|txs| - 1], addrs, op);
        } else {
          var j :| 0 <= j < |before| && Pays(before[j], addrs, op) && !SpentAfter(before, j, op);
          assert Pays(txs[j], addrs, op) && !SpentAfter(txs, j, op);
        }
      }
      if j :| 0 <= j < |txs| && Pays(txs[j], addrs, op) && !SpentAfter(txs, j, op) {
        if j < |before| { assert Pays(before[j], addrs, op) && !SpentAfter(before, j, op); }
      }
    }
  }

  /** What is paid and spent was last spent after it was last paid. */
  ghost predicate LastSpent(addrs: set<Addr>, txs: seq<Tx>, op: OutPoint) {
    SpentIn(txs, op) ==> forall j :: 0 <= j < |txs| && Pays(txs[j], addrs, op) ==> SpentAfter(txs, j, op)
  }

  /** The final set is the initial set and everything paid, less everything spent, exactly when no
      output that is spent is paid again after its last spend. */
  lemma {:induction false} FinalSet(unspent: set<OutPoint>, addrs: set<Addr>, txs: seq<Tx>, now: set<OutPoint>)
    requires IsAfter(unspent, addrs, txs, now)
    ensures (forall op :: op in now <==> (op in unspent || PaidIn(txs, addrs, op)) && !SpentIn(txs, op)) <==>
      (forall op :: LastSpent(addrs, txs, op))
  {
    forall op
      ensures (op in now <==> (op in unspent || PaidIn(txs, addrs, op)) && !SpentIn(txs, op)) <==>
        LastSpent(addrs, txs, op)
    {
      FinalAt(unspent, addrs, txs, op);
    }
  }

  lemma {:induction false} FinalAt(unspent: set<OutPoint>, addrs: set<Addr>, txs: seq<Tx>, op: OutPoint)
    ensures (InAfter(unspent, addrs, txs, op) <==> (op in unspent || PaidIn(txs, addrs, op)) && !SpentIn(txs, op)) <==>
      LastSpent(addrs, txs, op)
  {
    AfterIs(unspent, addrs, txs, op);
    if !SpentIn(txs, op) {
      assert forall j :: 0 <= j < |txs| && Pays(txs[j], addrs, op) ==> !SpentAfter(txs, j, op);
    }
  }

  /** In particular when no output is paid at or after a transaction that spends it. */
  lemma {:induction false} OrderedTxs(addrs: set<Addr>, txs: seq<Tx>, op: OutPoint)
    requires forall j, k :: 0 <= k <= j < |txs| && Pays(txs[j], addrs, op) ==> !Spends(txs[k], op)
    ensures LastSpent(addrs, txs, op)
  {
    if SpentIn(txs, op) {
      var k :| 0 <= k < |txs| && Spends(txs[k], op);
      forall j | 0 <= j < |txs| && Pays(txs[j], addrs, op) ensures SpentAfter(txs, j, op) {
        assert j < k;
      }
    }
  }

  // ------------------------------------------------------------------ the chain as it is read

  datatype Database = Fine | BlockNotFound | Broken
  /** The best chain and the state of the database at the moment of a read. */
  datatype Read = Read(best: seq<Header>, db: Database)

  datatype Lookup = Found(header: Header) | NotFound | Failed
  datatype Outcome = Finished(last: Option<Header>, registered: bool) | DatabaseError | Reorganize | Quit

  const MAX_INT32 := 0x7fff_ffff

  /** A run of block hashes, each the parent of the next, from a height on. */
  ghost predicate Run(list: seq<Hash>, height: int) {
    forall i :: 0 <= i < |list| ==> RunAt(list, height, i)
  }

  ghost predicate RunAt(list: seq<Hash>, height: int, i: nat)
    requires i < |list|
  {
    list[i].HashOf? && Depth(list[i].header) == height + i && (0 < i ==> list[i].header.prev == list[i - 1])
  }

  /** The hashes of the best chain from start up to end, as far as the chain reaches. */
  method HeightRange(genesis: Header, best: seq<Header>, start: int, end: int) returns (list: Option<seq<Hash>>)
    requires IsChain(genesis, best) && genesis.prev == ZeroHash
    ensures list.None? <==> start < 0 || end < start
    ensures list.Some? ==> Run(list.value, start)
    ensures list.Some? ==>
      |list.value| == if |best| <= start then 0 else if |best| <= end then |best| - start else end - start
    ensures list.Some? ==>
      forall i :: 0 <= i < |list.value| ==> start + i < |best| && list.value[i] == HashOf(best[start + i])
  {
    if start < 0 || end < start {
      return None;
    }
    if start == end || start >= |best| {
      return Some([]);
    }
    var stop := if end > |best| then |best| else end;
    var hashes := [];
    for i := start to stop
      invariant |hashes| == i - start && forall j :: 0 <= j < i - start ==> hashes[j] == HashOf(best[start + j])
    {
      hashes := hashes + [HashOf(best[i])];
    }
    forall i | 0 <= i < |hashes| ensures RunAt(hashes, start, i) {
      DepthIsHeight(genesis, best, start + i);
      if 0 < i { assert LinkAt(best, start + i); }
    }
    return Some(hashes);
  }

  ghost predicate OnBest(best: seq<Header>, h: Header) {
    Depth(h) < |best| && best[Depth(h)] == h
  }

  /** A block of the best chain by its hash; a block off the best chain is an error of its own. */
  method BlockByHash(read: Read, hash: Hash) returns (r: Lookup)
    ensures r.Found? <==> hash.HashOf? && OnBest(read.best, hash.header) && read.db.Fine?
    ensures r.NotFound? <==> hash.HashOf? && OnBest(read.best, hash.header) && read.db.BlockNotFound?
    ensures r.Found? ==> hash == HashOf(r.header)
  {
    if hash.ZeroHash? || Depth(hash.header) >= |read.best| || read.best[Depth(hash.header)] != hash.header {
      return Failed;
    }
    match read.db
    case Fine => return Found(hash.header);
    case BlockNotFound => return NotFound;
    case Broken => return Failed;
  }

  /** The transactions of a list of blocks. */
  ghost function AllTxs(txsOf: Header -> seq<Tx>, blocks: seq<Header>): seq<Tx> {
    if blocks == [] then [] else AllTxs(txsOf, blocks[..|blocks| - 1]) + txsOf(blocks[|blocks| - 1])
  }

  /** The blocks visited are hash-linked, from a height on. */
  ghost predicate Chained(blocks: seq<Header>, height: int) {
    forall i :: 0 <= i < |blocks| ==> ChainedAt(blocks, height, i)
  }

  ghost predicate ChainedAt(blocks: seq<Header>, height: int, i: nat)
    requires i < |blocks|
  {
    Depth(blocks[i]) == height + i && (0 < i ==> LinkAt(blocks, i))
  }

  lemma {:induction false} ChainedMore(blocks: seq<Header>, height: int, block: Header)
    requires Chained(blocks, height) && Depth(block) == height + |blocks|
    requires blocks != [] ==> block.prev == HashOf(blocks[|blocks| - 1])
    ensures Chained(blocks + [block], height)
  {
    var now := blocks + [block];
    forall i | 0 <= i < |now| ensures ChainedAt(now, height, i) {
      if i < |blocks| { assert ChainedAt(blocks, height, i); }
    }
  }

  ghost predicate WorldOk(genesis: Header, world: seq<Read>) {
    genesis.prev == ZeroHash && forall r :: r in world ==> IsChain(genesis, r.best)
  }

  /** A chain that was read had no block at a height. */
  ghost predicate Ended(world: seq<Read>, clock: nat, height: int) {
    exists t :: 0 <= t < clock && t < |world| && |world[t].best| <= height
  }

  /** The block was the tip of the best chain at a read. */
  ghost predicate TipAt(world: seq<Read>, t: nat, h: Header) {
    t < |world| && world[t].best != [] && Last(world[t].best) == h
  }

  lemma {:induction false} EndedLater(world: seq<Read>, clock: nat, later: nat, height: int)
    requires clock <= later && Ended(world, clock, height)
    ensures Ended(world, later, height)
  {
  }

  /** A chain that was read has another block in the place of the last one visited. */
  ghost predicate Forked(world: seq<Read>, clock: nat, last: Header) {
    exists t :: 0 <= t < clock && t < |world| && OffChain(world[t].best, last)
  }

  ghost predicate OffChain(best: seq<Header>, last: Header) {
    Depth(last) < |best| && best[Depth(last)] != last
  }

  /** The block is one above the last one visited and does not build on it. */
  predicate Strays(last: Header, block: Header) {
    Depth(block) == Depth(last) + 1 && block.prev != HashOf(last)
  }

  ghost predicate Missed(world: seq<Read>, clock: nat) {
    exists t :: 0 <= t < clock && t < |world| && world[t].db.BlockNotFound?
  }

  /** The block was on the best chain at some read. */
  ghost predicate Seen(world: seq<Read>, clock: nat, h: Header) {
    exists t :: 0 <= t < clock && t < |world| && OnBest(world[t].best, h)
  }

  ghost predicate AllSeen(world: seq<Read>, clock: nat, hs: seq<Header>) {
    forall i :: 0 <= i < |hs| ==> SeenAt(world, clock, hs, i)
  }

  ghost predicate SeenAt(world: seq<Read>, clock: nat, hs: seq<Header>, i: nat)
    requires i < |hs|
  {
    Seen(world, clock, hs[i])
  }

  ghost predicate ListSeen(world: seq<Read>, clock: nat, list: seq<Hash>) {
    forall i :: 0 <= i < |list| ==> list[i].HashOf? && Seen(world, clock, list[i].header)
  }

  lemma {:induction false} SeenLater(world: seq<Read>, clock: nat, later: nat, hs: seq<Header>, list: seq<Hash>)
    requires clock <= later && AllSeen(world, clock, hs) && ListSeen(world, clock, list)
    ensures AllSeen(world, later, hs) && ListSeen(world, later, list)
  {
    forall i | 0 <= i < |hs| ensures SeenAt(world, later, hs, i) { assert SeenAt(world, clock, hs, i); }
    forall i | 0 <= i < |list| ensures list[i].HashOf? && Seen(world, later, list[i].header) {
      assert Seen(world, clock, list[i].header);
    }
  }

  lemma {:induction false} SeenMore(world: seq<Read>, clock: nat, hs: seq<Header>, h: Header)
    requires AllSeen(world, clock, hs) && Seen(world, clock, h)
    ensures AllSeen(world, clock, hs + [h])
  {
    var now := hs + [h];
    forall i | 0 <= i < |now| ensures SeenAt(world, clock, now, i) {
      assert i < |hs| ==> SeenAt(world, clock, hs, i);
    }
  }

  /** The best chain only grows, and the database does not fail. */
  ghost predicate Steady(world: seq<Read>) {
    && (forall t :: 0 <= t < |world| ==> FineAt(world, t))
    && (forall s, t :: 0 <= s < t < |world| ==> Grows(world, s, t))
  }

  ghost predicate FineAt(world: seq<Read>, t: nat)
    requires t < |world|
  {
    world[t].db.Fine?
  }

  ghost predicate Grows(world: seq<Read>, s: nat, t: nat)
    requires s < |world| && t < |world|
  {
    world[s].best <= world[t].best
  }

  /** Then a block that was read is found again, and no chain forks from it. */
  lemma {:induction false} SteadyKeeps(world: seq<Read>, clock: nat, h: Header)
    requires Steady(world) && Seen(world, clock, h) && clock <= |world|
    ensures !Forked(world, |world|, h)
    ensures clock < |world| ==> OnBest(world[clock].best, h)
  {
    var t :| 0 <= t < clock && t < |world| && OnBest(world[t].best, h);
    assert clock < |world| ==> Grows(world, t, clock);
    forall s | 0 <= s < |world| ensures !OffChain(world[s].best, h) {
      assert s < t ==> Grows(world, s, t);
      assert t < s ==> Grows(world, t, s);
    }
  }

  /** A read finds no block: it is off the best chain then, or the database is broken. */
  ghost predicate Gone(read: Read, h: Header) {
    !OnBest(read.best, h) || read.db.Broken?
  }

  /** The last read was for the block of a height, which an earlier read had on the best chain,
      and did not find it. */
  ghost predicate Unreadable(world: seq<Read>, clock: nat, height: int) {
    0 < clock <= |world| && UnreadAt(world, clock - 1, height)
  }

  ghost predicate UnreadAt(world: seq<Read>, t: nat, height: int)
    requires t < |world|
  {
    exists h :: Seen(world, t, h) && Depth(h) == height && (Gone(world[t], h) || !world[t].db.Fine?)
  }

  /** The last read but one missed the block of a height, and the last one had none there. */
  ghost predicate GivenUp(world: seq<Read>, clock: nat, height: int) {
    && 2 <= clock <= |world| && world[clock - 2].db.BlockNotFound?
    && |world[clock - 1].best| <= height < |world[clock - 2].best|
  }

  /** The chain that is read next has a block at the height, the read after it misses the block, and
      the one after that has none there. */
  ghost predicate LosesBlock(world: seq<Read>, clock: nat, height: int) {
    && clock + 2 < |world| && |world[clock + 2].best| <= height < |world[clock].best| && 0 <= height
    && OnBest(world[clock + 1].best, world[clock].best[height]) && world[clock + 1].db.BlockNotFound?
  }

  /** The chain that is read next has a block at the height, and the one read after it has
      another block there or none. */
  ghost predicate Reorganized(world: seq<Read>, clock: nat, height: int) {
    && clock + 1 < |world| && 0 <= height < |world[clock].best|
    && !OnBest(world[clock + 1].best, world[clock].best[height])
  }

  /** The reads that a chunk makes: one for its hashes and one for each block it visits. One without a
      block makes at most two, and it goes on only if none was known to be left. */
  ghost predicate Paced(steps: int, blocks: int, behind: bool, more: bool) {
    if blocks != 0 then 0 < blocks && steps == 1 + blocks
    else steps <= 2 && (behind ==> steps == 1 && !more)
  }

  class Client {
    const genesis: Header
    const addrs: set<Addr>
    const txsOf: Header -> seq<Tx>
    const maxInvPerMsg: nat
    const world: seq<Read>
    var clock: nat
    var unspent: set<OutPoint>
    var last: Option<Header>
    /** The unspent set, the first height and the blocks visited since. */
    ghost const start: set<OutPoint>
    ghost const first: int
    ghost var visited: seq<Header>

    constructor (
        genesis: Header, addrs: set<Addr>, txsOf: Header -> seq<Tx>, maxInvPerMsg: nat, world: seq<Read>,
        unspent: set<OutPoint>, first: int)
      requires WorldOk(genesis, world) && 0 < maxInvPerMsg
      ensures Fixed() && Valid() && clock == 0 && visited == [] && start == unspent
      ensures this.first == first && this.world == world && this.addrs == addrs && this.txsOf == txsOf
    {
      this.genesis, this.addrs, this.txsOf, this.maxInvPerMsg, this.world := genesis, addrs, txsOf, maxInvPerMsg, world;
      this.clock, this.unspent, this.last := 0, unspent, None;
      this.start, this.first, this.visited := unspent, first, [];
    }

    /** The visited blocks are a hash-linked run from the first height, the last of them is
        remembered, and the unspent set is what their transactions make of the initial one. */
    ghost predicate Progress()
      reads this`visited, this`last, this`unspent
    {
      && Chained(visited, first) && last == (if visited == [] then None else Some(visited[|visited| - 1]))
      && IsAfter(start, addrs, AllTxs(txsOf, visited), unspent)
    }

    ghost predicate Valid()
      reads this
    {
      clock <= |world| && Progress() && AllSeen(world, clock, visited)
    }

    /** The reads are of chains, and chunks are not empty. */
    ghost predicate Fixed() {
      WorldOk(genesis, world) && 0 < maxInvPerMsg
    }

    /** Reads a range of hashes. An empty one means that the chain had no block at the start. */
    method FetchRange(start: int, end: int) returns (list: Option<seq<Hash>>)
      requires WorldOk(genesis, world) && clock < |world| && AllSeen(world, clock, visited)
      modifies this`clock
      ensures clock == old(clock) + 1 && AllSeen(world, clock, visited)
      ensures list.None? ==> start < 0 || end < start
      ensures list.Some? ==> Run(list.value, start) && start + |list.value| <= end && ListSeen(world, clock, list.value)
      ensures list.Some? && list.value == [] && start < end ==>
        |world[old(clock)].best| <= start && Ended(world, clock, start)
      ensures 0 <= start < end && start < |world[old(clock)].best| ==>
        list.Some? && list.value != [] && list.value[0] == HashOf(world[old(clock)].best[start])
      ensures 0 <= start < end && |world[old(clock)].best| <= start ==> list == Some([])
    {
      SeenLater(world, clock, clock + 1, visited, []);
      list := HeightRange(genesis, world[clock].best, start, end);
      clock := clock + 1;
      if list.Some? {
        assert list.value == [] && start < end ==> |world[clock - 1].best| <= start;
        forall i | 0 <= i < |list.value| ensures list.value[i].HashOf? && Seen(world, clock, list.value[i].header) {
          assert RunAt(list.value, start, i);
          assert OnBest(world[clock - 1].best, list.value[i].header);
        }
      }
    }

    /** Reads a block. list is the run of hashes it is from. */
    method FetchBlock(hash: Hash, ghost list: seq<Hash>) returns (r: Lookup)
      requires WorldOk(genesis, world) && clock < |world| && AllSeen(world, clock, visited)
      requires ListSeen(world, clock, list) && hash in list
      modifies this`clock
      ensures clock == old(clock) + 1 && AllSeen(world, clock, visited) && ListSeen(world, clock, list)
      ensures r.Found? ==> hash == HashOf(r.header) && Seen(world, clock, r.header)
      ensures r.Found? && last.Some? && Strays(last.value, r.header) ==> Forked(world, clock, last.value)
      ensures r.NotFound? ==> Missed(world, clock) && world[old(clock)].db.BlockNotFound?
      ensures r.Failed? <==> Gone(world[old(clock)], hash.header)
      ensures r.Found? <==> !Gone(world[old(clock)], hash.header) && world[old(clock)].db.Fine?
      ensures !r.Found? ==> Unreadable(world, clock, Depth(hash.header))
      ensures Steady(world) ==> r.Found?
    {
      SeenLater(world, clock, clock + 1, visited, list);
      if Steady(world) {
        SteadyKeeps(world, clock, hash.header);
        assert FineAt(world, clock);
      }
      r := BlockByHash(world[clock], hash);
      clock := clock + 1;
      assert r.Found? ==> OnBest(world[clock - 1].best, r.header);
      if r.Found? && last.Some? && Strays(last.value, r.header) {
        assert LinkAt(world[clock - 1].best, Depth(r.header));
        assert OffChain(world[clock - 1].best, last.value);
      }
      assert r.NotFound? ==> world[clock - 1].db.BlockNotFound?;
    }

    /** Visits block i of a fetched run: it must follow the last one visited. */
    method Visit(block: Header, i: nat) returns (ok: bool)
      requires Progress() && Depth(block) == first + |visited|
      requires 0 < i ==> last.Some? && block.prev == HashOf(last.value)
      modifies this`unspent, this`last, this`visited
      ensures Progress()
      ensures ok <==> i != 0 || old(last).None? || block.prev == HashOf(old(last).value)
      ensures visited == if ok then old(visited) + [block] else old(visited)
    {
      if i == 0 && last.Some? {
        if block.prev != HashOf(last.value) {
          return false;
        }
      }
      ChainedMore(visited, first, block);
      unspent := RescanBlock(txsOf(block), addrs, unspent, start, AllTxs(txsOf, visited));
      ghost var now := visited + [block];
      assert now[..|now| - 1] == visited;
      visited := now;
      last := Some(block);
      return true;
    }

    /** After a block could not be found: a new range of hashes, which must go on where the last one
        visited ended. */
    method RecoverFromReorg(minBlock: int, maxBlock: int) returns (r: Outcome, list: seq<Hash>)
      requires Fixed() && Valid() && clock < |world| && minBlock == first + |visited|
      modifies this`clock
      ensures Valid() && old(clock) < clock
      ensures r.Finished? ==>
        && r == Finished(last, false) && Run(list, minBlock) && minBlock + |list| <= maxBlock
        && ListSeen(world, clock, list)
      ensures r.Finished? && list == [] && minBlock < maxBlock ==>
        Ended(world, clock, minBlock) && clock == old(clock) + 1 && |world[old(clock)].best| <= minBlock
      ensures 0 <= minBlock < maxBlock && |world[old(clock)].best| <= minBlock ==>
        r == Finished(last, false) && list == []
      ensures r.Quit? ==> clock == |world|
      ensures r.Reorganize? ==> last.Some? && Forked(world, clock, last.value)
      ensures r.DatabaseError? && minBlock <= maxBlock ==>
        minBlock < 0 || Unreadable(world, clock, minBlock)
    {
      list := [];
      var hashes := FetchRange(minBlock, maxBlock);
      if hashes.None? {
        return DatabaseError, list;
      }
      list := hashes.value;
      if last.None? || |list| == 0 {
        return Finished(last, false), list;
      }
      if clock == |world| {
        return Quit, list;
      }
      assert RunAt(list, minBlock, 0);
      assert ChainedAt(visited, first, |visited| - 1);
      var found := FetchBlock(list[0], list);
      if !found.Found? {
        return DatabaseError, list;
      }
      if found.header.prev != HashOf(last.value) {
        return Reorganize, list;
      }
      return Finished(last, false), list;
    }

    /** At position i of a fetched run of hashes from height min on, with what is below i visited. */
    ghost predicate At(list: seq<Hash>, i: nat, min: int, maxBlock: int)
      reads this
    {
      && Valid() && Run(list, min) && i <= |list| && min + i == first + |visited| && min + |list| <= maxBlock
      && (0 < i ==> last.Some? && list[i - 1] == HashOf(last.value)) && ListSeen(world, clock, list)
    }

    /** What an outcome tells: the scan ends at the last height or where a chain ended; an error of
        reorganization has its cause, and in a steady world there is no error; and a client that
        visited a block is registered for what comes next only at the tip of the best chain, while
        one that visited none is registered without a comparison. A scan through the current block
        that finishes below the last height registers the client exactly if its last two reads did not
        miss a block and then find none to go on with. */
    ghost predicate Justified(r: Outcome, maxBlock: int)
      reads this`clock, this`visited, this`last
    {
      && (r.Finished? ==> r.last == last && (maxBlock <= first + |visited| || Ended(world, clock, first + |visited|)))
      && (r.Quit? ==> clock == |world|)
      && (r.Reorganize? ==>
            (maxBlock != MAX_INT32 && Missed(world, clock)) || (last.Some? && Forked(world, clock, last.value)))
      && (r.DatabaseError? ==>
            first + |visited| < 0 || Unreadable(world, clock, first + |visited|))
      && (0 <= first && Steady(world) ==> r.Finished? || r.Quit?)
      && (r.Finished? && r.registered ==>
            && maxBlock == MAX_INT32
            && (last.Some? ==> exists t: nat :: t + 1 == clock && TipAt(world, t, last.value)))
      && (r.Finished? && maxBlock == MAX_INT32 && first + |visited| < maxBlock ==>
            (r.registered <==> !GivenUp(world, clock, first + |visited|)))
    }

    /** The next read misses the block of a height, and the one after it has none there. */
    ghost predicate Loses(h: Header, height: int, t: nat) {
      && t + 1 < |world| && 0 <= height && |world[t + 1].best| <= height
      && OnBest(world[t].best, h) && world[t].db.BlockNotFound?
    }

    /** The next hash of a run. If its block is not found in the database the run is replaced by a new
        one from there on; min is then moved up by what was done. */
    method Step(list: seq<Hash>, i: nat, min: int, maxBlock: int)
      returns (r: Outcome, go: bool, list': seq<Hash>, i': nat, min': int)
      requires Fixed() && At(list, i, min, maxBlock) && i < |list|
      modifies this`clock, this`unspent, this`last, this`visited
      ensures old(clock) <= clock && Valid() && first + |visited| <= maxBlock
      ensures go ==> At(list', i', min', maxBlock) && old(clock) < clock
      ensures !go ==> Justified(r, maxBlock)
      ensures old(clock) < |world| && Gone(world[old(clock)], list[i].header) ==>
        !go && r == DatabaseError && visited == old(visited)
      ensures old(clock) < |world| && !Gone(world[old(clock)], list[i].header) && world[old(clock)].db.Fine? ==>
        && (go <==> i != 0 || old(last).None? || list[i].header.prev == HashOf(old(last).value))
        && visited == if go then old(visited) + [list[i].header] else old(visited)
      ensures go && visited == old(visited) ==> maxBlock == MAX_INT32 && world[old(clock)].db.BlockNotFound?
      ensures maxBlock == MAX_INT32 && Loses(list[i].header, min + i, old(clock)) ==>
        !go && r == Finished(old(last), false) && visited == old(visited)
      ensures Steady(world) && 0 <= first ==>
        clock - old(clock) == |visited| - |old(visited)| && (go <==> old(clock) < |world|)
      ensures Steady(world) && go ==> |visited| == |old(visited)| + 1 && list' == list && i' == i + 1
    {
      list', i', min', go := list, i, min, false;
      if clock == |world| {
        r := Quit;
        return;
      }
      assert RunAt(list, min, i);
      var found := FetchBlock(list[i], list);
      if found.Found? {
        r, i' := Reorganize, i + 1;
        go := VisitAt(found.header, list, i, min, maxBlock, i');
      } else if found.Failed? {
        r := DatabaseError;
      } else {
        min', i' := min + i, 0;
        r, list' := BlockIsGone(min', maxBlock);
        go := r.Finished? && |list'| > 0;
      }
    }

    /** The block of position i is there: the run goes on unless it does not follow the last one. */
    method VisitAt(block: Header, ghost list: seq<Hash>, i: nat, ghost min: int, ghost maxBlock: int, ghost next: nat)
      returns (ok: bool)
      requires next == i + 1 && Fixed() && At(list, i, min, maxBlock) && i < |list| && list[i] == HashOf(block)
      requires Seen(world, clock, block)
      requires last.Some? && Strays(last.value, block) ==>
        Forked(world, clock, last.value)
      modifies this`unspent, this`last, this`visited
      ensures ok ==> At(list, next, min, maxBlock) && visited == old(visited) + [block]
      ensures ok <==> i != 0 || old(last).None? || block.prev == HashOf(old(last).value)
      ensures !ok ==> Valid() && visited == old(visited) && Justified(Reorganize, maxBlock)
    {
      assert RunAt(list, min, i);
      assert visited != [] ==> ChainedAt(visited, first, |visited| - 1);
      if Steady(world) && visited != [] { SteadyHolds(); }
      SeenMore(world, clock, visited, block);
      ok := Visit(block, i);
    }

    /** What a block that is not found in the database leads to. */
    method BlockIsGone(minBlock: int, maxBlock: int) returns (r: Outcome, list: seq<Hash>)
      requires Fixed() && Valid() && minBlock == first + |visited| && minBlock < maxBlock && Missed(world, clock)
      requires 0 < clock && world[clock - 1].db.BlockNotFound? && minBlock < |world[clock - 1].best|
      modifies this`clock
      ensures Valid() && old(clock) <= clock
      ensures r.Finished? ==>
        old(clock) < clock && Run(list, minBlock) && minBlock + |list| <= maxBlock && ListSeen(world, clock, list)
      ensures !(r.Finished? && list != []) ==> Justified(r, maxBlock)
      ensures r.Finished? ==> maxBlock == MAX_INT32
      ensures 0 <= minBlock && maxBlock == MAX_INT32 && old(clock) < |world| && |world[old(clock)].best| <= minBlock ==>
        r == Finished(last, false) && list == []
    {
      list := [];
      assert !Steady(world) by {
        var t :| 0 <= t < clock && t < |world| && world[t].db.BlockNotFound?;
        assert !FineAt(world, t);
      }
      if maxBlock != MAX_INT32 {
        r := Reorganize;
      } else if clock == |world| {
        r := Quit;
      } else {
        r, list := RecoverFromReorg(minBlock, maxBlock);
      }
    }

    /** In a steady world no chain forks from the last block visited. */
    lemma {:induction false} SteadyHolds()
      requires Valid() && Steady(world) && visited != []
      ensures !Forked(world, clock, last.value)
    {
      assert SeenAt(world, clock, visited, |visited| - 1);
      SteadyKeeps(world, clock, last.value);
    }

    /** Works through a fetched run of hashes. */
    method ScanRun(hashes: seq<Hash>, minBlock: int, maxBlock: int) returns (r: Outcome, more: bool, min: int)
      requires Fixed() && At(hashes, 0, minBlock, maxBlock)
      modifies this`clock, this`unspent, this`last, this`visited
      ensures Valid() && old(clock) <= clock && first + |visited| <= maxBlock
      ensures more ==> min == first + |visited|
      ensures !more ==> Justified(r, maxBlock)
      ensures hashes != [] && old(clock) < |world| && Gone(world[old(clock)], hashes[0].header) ==>
        !more && r == DatabaseError && visited == old(visited)
      ensures hashes != [] && maxBlock == MAX_INT32 && Loses(hashes[0].header, minBlock, old(clock)) ==>
        !more && r == Finished(old(last), false) && visited == old(visited)
      ensures Steady(world) && 0 <= first ==>
        && clock - old(clock) == |visited| - |old(visited)|
        && (more && hashes != [] ==> |old(visited)| < |visited|)
    {
      var list, i: nat := hashes, 0;
      min, more, r := minBlock, true, Quit;
      ghost var gone := hashes != [] && clock < |world| && Gone(world[clock], hashes[0].header);
      ghost var lost := hashes != [] && maxBlock == MAX_INT32 && Loses(hashes[0].header, minBlock, clock);
      while i < |list|
        invariant At(list, i, min, maxBlock) && old(clock) <= clock
        invariant gone || lost ==>
          && i == 0 && list == hashes && min == minBlock
          && clock == old(clock) && visited == old(visited) && last == old(last)
        invariant Steady(world) && 0 <= first ==>
          clock - old(clock) == |visited| - |old(visited)| == i && list == hashes
        decreases |world| - clock
      {
        r, more, list, i, min := Step(list, i, min, maxBlock);
        if !more {
          return;
        }
      }
      min := min + |list|;
    }

    /** Reads the tip of the best chain. */
    method ReadTip(ghost height: int) returns (tip: Header)
      requires Fixed() && clock < |world| && AllSeen(world, clock, visited) && Ended(world, clock, height)
      modifies this`clock
      ensures clock == old(clock) + 1 && AllSeen(world, clock, visited) && Ended(world, clock, height)
      ensures TipAt(world, old(clock), tip)
    {
      assert IsChain(genesis, world[clock].best);
      tip := Last(world[clock].best);
      SeenLater(world, clock, clock + 1, visited, []);
      EndedLater(world, clock, clock + 1, height);
      clock := clock + 1;
    }

    /** The chain read last has a block that is still to be visited. */
    ghost predicate Behind()
      reads this`clock, this`visited
    {
      0 < clock <= |world| && first + |visited| < |world[clock - 1].best|
    }

    /** No more blocks: the scan is finished if it had an end; else the client is registered if the last
        block visited is the tip, and the scan goes on if not. */
    method CaughtUp(maxBlock: int) returns (r: Outcome, again: bool)
      requires Fixed() && Valid() && Ended(world, clock, first + |visited|)
      requires 0 < clock && |world[clock - 1].best| <= first + |visited|
      modifies this`clock
      ensures Valid() && old(clock) <= clock <= old(clock) + 1
      ensures !again ==> Justified(r, maxBlock)
      ensures Steady(world) && again ==> Behind()
    {
      r, again := Finished(last, false), false;
      if maxBlock != MAX_INT32 {
        return;
      }
      if clock == |world| {
        r := Quit;
        return;
      }
      ghost var t := clock;
      var tip := ReadTip(first + |visited|);
      assert TipAt(world, t, tip);
      again := last.Some? && last.value != tip;
      if Steady(world) && again {
        assert SeenAt(world, t, visited, |visited| - 1) && ChainedAt(visited, first, |visited| - 1);
        SteadyKeeps(world, t, last.value);
      }
      r := Finished(last, true);
    }

    /** One chunk of hashes. */
    method Chunk(minBlock: int, maxBlock: int) returns (r: Outcome, more: bool, min: int)
      requires Fixed() && Valid() && minBlock == first + |visited| && minBlock < maxBlock && clock < |world|
      modifies this`clock, this`unspent, this`last, this`visited
      ensures Valid() && old(clock) < clock && first + |visited| <= maxBlock
      ensures more ==> min == first + |visited|
      ensures !more ==> Justified(r, maxBlock)
      ensures 0 <= minBlock && Reorganized(world, old(clock), minBlock) ==>
        !more && r == DatabaseError && visited == old(visited)
      ensures maxBlock == MAX_INT32 && LosesBlock(world, old(clock), minBlock) ==>
        !more && r == Finished(old(last), false) && visited == old(visited)
      ensures Steady(world) && 0 <= first ==> Paced(clock - old(clock), |visited| - |old(visited)|, old(Behind()), more)
      ensures Steady(world) && 0 <= first && more && |visited| == |old(visited)| ==> Behind()
    {
      min := minBlock;
      if Steady(world) && Behind() { assert Grows(world, clock - 1, clock); }
      var maxLoopBlock := if maxBlock - minBlock > maxInvPerMsg then minBlock + maxInvPerMsg else maxBlock;
      var hashes := FetchRange(minBlock, maxLoopBlock);
      if hashes.None? {
        r, more := DatabaseError, false;
      } else if |hashes.value| == 0 {
        r, more := CaughtUp(maxBlock);
      } else {
        r, more, min := ScanRun(hashes.value, minBlock, maxBlock);
      }
    }

    /** The rescan from a height up to another, or through the current block. Whatever the outcome,
        the blocks visited are a hash-linked run, each from the best chain at some read, and the
        unspent set follows from them. */
    method ScanBlockChunks(from: int, maxBlock: int) returns (r: Outcome)
      requires Fixed() && Valid() && visited == [] && from == first
      modifies this`clock, this`unspent, this`last, this`visited
      ensures Valid() && (from + |visited| <= maxBlock || visited == []) && Justified(r, maxBlock)
      ensures 0 <= from < maxBlock && Reorganized(world, old(clock), from) ==> r == DatabaseError && visited == []
      ensures from < maxBlock == MAX_INT32 && LosesBlock(world, old(clock), from) ==>
        r == Finished(None, false) && visited == []
      ensures Steady(world) && 0 <= from && r.Finished? && from + |visited| < maxBlock ==>
        (r.registered <==> maxBlock == MAX_INT32)
      ensures Steady(world) && 0 <= from && r.Quit? ==> |world| - old(clock) <= 4 * |visited| + 3
    {
      ghost var behind := false;
      var minBlock := from;
      ghost var gone := 0 <= from < maxBlock && Reorganized(world, clock, from);
      ghost var lost := from < maxBlock == MAX_INT32 && LosesBlock(world, clock, from);
      while minBlock < maxBlock
        invariant Valid() && minBlock == first + |visited| && (minBlock <= maxBlock || visited == [])
        invariant gone || lost ==> minBlock == from && clock == old(clock) && visited == []
        invariant behind ==> Behind()
        invariant Steady(world) && 0 <= from ==>
          clock - old(clock) <= 4 * |visited| + if behind then 2 else 0
        decreases |world| - clock
      {
        if clock == |world| {
          return Quit;
        }
        var more;
        ghost var before := |visited|;
        r, more, minBlock := Chunk(minBlock, maxBlock);
        behind := Steady(world) && 0 <= from && more && |visited| == before;
        if !more {
          assert Steady(world) && 2 <= clock ==> FineAt(world, clock - 2);
          return;
        }
      }
      return Finished(last, false);
    }
  }

  /** A reorganization during a rescan through the current block, with no fault of the database:
      block a was replaced by b after its hash was read. The scan does not go on with b. */
  method ReorganizedScan(genesis: Header, a: Header, b: Header, txsOf: Header -> seq<Tx>) returns (r: Outcome)
    requires genesis.prev == ZeroHash && a.prev == b.prev == HashOf(genesis) && a != b
    ensures r == DatabaseError
  {
    var world := [Read([genesis, a], Fine), Read([genesis, b], Fine), Read([genesis, b], Fine)];
    assert LinkAt([genesis, a], 1) && LinkAt([genesis, b], 1);
    assert Depth(a) == 1;
    var client := new Client(genesis, {}, txsOf, 1, world, {}, 1);
    r := client.ScanBlockChunks(1, MAX_INT32);
  }

  /** A rescan through the current block that is not registered: block a is lost by the database and
      then leaves the best chain. */
  method UnregisteredScan(genesis: Header, a: Header, txsOf: Header -> seq<Tx>) returns (r: Outcome)
    requires genesis.prev == ZeroHash && a.prev == HashOf(genesis)
    ensures r == Finished(None, false)
  {
    var world := [Read([genesis, a], Fine), Read([genesis, a], BlockNotFound), Read([genesis], Fine)];
    assert LinkAt([genesis, a], 1) && Depth(a) == 1;
    var client := new Client(genesis, {}, txsOf, 1, world, {}, 1);
    r := client.ScanBlockChunks(1, MAX_INT32);
  }
}
