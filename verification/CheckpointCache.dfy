/**
 * The cache of filter-header checkpoints that answers getcfcheckpt requests (node/server.go).
 * Requests may name any block of a tree of blocks, so entries of the cache may be off the branch
 * that is asked for; the cache is a Go slice, so growing it may or may not copy it.
 */
module CheckpointCache {
  import opened Chain
  import opened FilterHeaders

  /** A cached filter header and the block it belongs to. */
  datatype Entry = Entry(block: Hash, filter: int)

  // ------------------------------------------------------------------ checkpoint blocks

  /** The ancestor of h, or h itself, at a height. */
  function AtHeight(h: Header, height: nat): (r: Header)
    requires height <= Depth(h)
    ensures Depth(r) == height
    decreases h
  {
    if Depth(h) == height then h else AtHeight(h.prev.header, height)
  }

  lemma {:induction false} AtHeightTwice(h: Header, high: nat, low: nat)
    requires low <= high <= Depth(h)
    ensures AtHeight(AtHeight(h, high), low) == AtHeight(h, low)
    decreases h
  {
    if high < Depth(h) { AtHeightTwice(h.prev.header, high, low); }
  }

  lemma {:induction false} AtHeightInChain(genesis: Header, best: seq<Header>, i: nat, height: nat)
    requires IsChain(genesis, best) && genesis.prev == ZeroHash && height <= i < |best|
    ensures Depth(best[i]) == i && AtHeight(best[i], height) == best[height]
    decreases i
  {
    DepthIsHeight(genesis, best, i);
    if height < i {
      assert LinkAt(best, i);
      AtHeightInChain(genesis, best, i - 1, height);
    }
  }

  /** The first n checkpoint blocks below or at end. */
  function Checkpoints(interval: nat, end: Header, n: nat): (r: seq<Hash>)
    requires Mark(interval, n) <= Depth(end)
    ensures |r| == n
  {
    if n == 0 then [] else Checkpoints(interval, end, n - 1) + [HashOf(AtHeight(end, Mark(interval, n)))]
  }

  lemma {:induction false} CheckpointAt(interval: nat, end: Header, n: nat, i: nat)
    requires Mark(interval, n) <= Depth(end) && i < n
    ensures Mark(interval, i + 1) <= Mark(interval, n)
    ensures Checkpoints(interval, end, n)[i] == HashOf(AtHeight(end, Mark(interval, i + 1)))
  {
    if i < n - 1 { CheckpointAt(interval, end, n - 1, i); }
  }

  /** The hashes of the blocks at every interval up to end, found from the top down: once the walk
      meets the best chain it reads the chain by height. */
  method IntervalBlockHashes(genesis: Header, best: seq<Header>, interval: nat, end: Header) returns (hashes: seq<Hash>)
    requires IsChain(genesis, best) && genesis.prev == ZeroHash && 0 < interval
    ensures var n := LastMark(interval, Depth(end));
      Mark(interval, n) <= Depth(end) && hashes == Checkpoints(interval, end, n)
  {
    var index := Quotient(Depth(end), interval);
    MarkBelow(interval, Depth(end));
    hashes := [];
    var node := end;
    ghost var n := index;
    while 0 < index
      invariant index <= n && Mark(interval, index) <= Depth(node) <= Depth(end) && Mark(interval, n) <= Depth(end)
      invariant node == AtHeight(end, Depth(node))
      invariant Checkpoints(interval, end, n) == Checkpoints(interval, end, index) + hashes
    {
      var height := Mark(interval, index);
      AtHeightTwice(end, Depth(node), height);
      if Depth(node) < |best| && best[Depth(node)] == node {
        AtHeightInChain(genesis, best, Depth(node), height);
        node := best[height];
      } else {
        node := AtHeight(node, height);
      }
      hashes := [HashOf(node)] + hashes;
      index := index - 1;
    }
  }

  // ------------------------------------------------------------------ what the cache holds

  /** Entry i belongs to the block of a checkpoint height, and the entry below to its ancestor. */
  ghost predicate EntryOk(interval: nat, filterOf: Hash -> int, c: seq<Entry>, i: nat)
    requires i < |c|
  {
    && c[i].block.HashOf? && Depth(c[i].block.header) == Mark(interval, i + 1) && c[i].filter == filterOf(c[i].block)
    && (0 < i ==>
          && Mark(interval, i) <= Mark(interval, i + 1)
          && c[i - 1].block == HashOf(AtHeight(c[i].block.header, Mark(interval, i))))
  }

  ghost predicate CacheOk(interval: nat, filterOf: Hash -> int, c: seq<Entry>) {
    forall i :: 0 <= i < |c| ==> EntryOk(interval, filterOf, c, i)
  }

  /** How many leading checkpoints the cache shares with the request, found from the top down. */
  function Fork(c: seq<Entry>, hashes: seq<Hash>, k: nat): (f: nat)
    requires k <= |hashes|
    ensures f <= k
    ensures 0 < f ==> f <= |c| && c[f - 1].block == hashes[f - 1]
    ensures forall i :: f <= i < k ==> i >= |c| || c[i].block != hashes[i]
  {
    if k == 0 || (k <= |c| && c[k - 1].block == hashes[k - 1]) then k else Fork(c, hashes, k - 1)
  }

  /** One shared block means all below are shared: the cache may skip comparing them. */
  lemma {:induction false} SharedBelow(
      interval: nat, filterOf: Hash -> int, c: seq<Entry>, end: Header, n: nat, f: nat, i: nat)
    requires 0 < interval && CacheOk(interval, filterOf, c) && Mark(interval, n) <= Depth(end)
    requires i < f <= n && f <= |c| && c[f - 1].block == Checkpoints(interval, end, n)[f - 1]
    ensures c[i].block == Checkpoints(interval, end, n)[i] && c[i].filter == filterOf(c[i].block)
    decreases f
  {
    assert EntryOk(interval, filterOf, c, f - 1);
    CheckpointAt(interval, end, n, f - 1);
    if i < f - 1 {
      CheckpointAt(interval, end, n, f - 2);
      AtHeightTwice(end, Mark(interval, f), Mark(interval, f - 1));
      SharedBelow(interval, filterOf, c, end, n, f - 1, i);
    }
  }

  // ------------------------------------------------------------------ requests and replies

  /** The reply that looks every block up. */
  function Direct(filterOf: Hash -> int, hashes: seq<Hash>): (r: seq<int>)
    ensures |r| == |hashes| && forall i :: 0 <= i < |hashes| ==> r[i] == filterOf(hashes[i])
  {
    seq(|hashes|, i requires 0 <= i < |hashes| => filterOf(hashes[i]))
  }

  /** The entries of a list of blocks. */
  function Entries(filterOf: Hash -> int, hashes: seq<Hash>): (r: seq<Entry>)
    ensures |r| == |hashes| && forall i :: 0 <= i < |hashes| ==> r[i] == Entry(hashes[i], filterOf(hashes[i]))
  {
    seq(|hashes|, i requires 0 <= i < |hashes| => Entry(hashes[i], filterOf(hashes[i])))
  }

  /** The number of blocks from position i on that the filter index holds, up to the first it lacks. */
  function Available(has: Hash -> bool, hashes: seq<Hash>, i: nat): (k: nat)
    requires i <= |hashes|
    ensures i + k <= |hashes|
    ensures forall j :: i <= j < i + k ==> has(hashes[j])
    ensures i + k < |hashes| ==> !has(hashes[i + k])
    decreases |hashes| - i
  {
    if i == |hashes| || !has(hashes[i]) then 0 else 1 + Available(has, hashes, i + 1)
  }

  /** c with the entries f..f+k-1 replaced by those of the request, as far as c reaches. */
  function Overwritten(filterOf: Hash -> int, c: seq<Entry>, hashes: seq<Hash>, f: nat, k: nat): (r: seq<Entry>)
    requires f + k <= |hashes|
    ensures |r| == |c|
    ensures forall i :: 0 <= i < |c| ==> r[i] == if f <= i < f + k then Entry(hashes[i], filterOf(hashes[i])) else c[i]
  {
    seq(|c|, i requires 0 <= i < |c| => if f <= i < f + k then Entry(hashes[i], filterOf(hashes[i])) else c[i])
  }

  /** The cache after a request that got as far as reading it. roomy: the slice can grow in place. */
  function After(
      filterOf: Hash -> int, c: seq<Entry>, hashes: seq<Hash>, dbError: bool, has: Hash -> bool,
      roomy: bool): seq<Entry>
  {
    var f := Fork(c, hashes, |hashes|);
    var k := Available(has, hashes, f);
    if |hashes| <= |c| || dbError then c
    else if f + k == |hashes| then Overwritten(filterOf, c, hashes, f, k) + Entries(filterOf, hashes)[|c|..]
    else if roomy then Overwritten(filterOf, c, hashes, f, k)
    else c
  }

  /** Whether a request, if every lookup succeeds that it makes, is answered. */
  predicate Answers(c: seq<Entry>, hashes: seq<Hash>, dbError: bool, has: Hash -> bool) {
    var f := Fork(c, hashes, |hashes|);
    !dbError && f + Available(has, hashes, f) == |hashes|
  }

  /** The reply: the shared part from the cache, the rest looked up. */
  function Reply(filterOf: Hash -> int, c: seq<Entry>, hashes: seq<Hash>): (r: seq<int>) {
    var f := Fork(c, hashes, |hashes|);
    seq(|hashes|, i requires 0 <= i < |hashes| => if i < f && i < |c| then c[i].filter else filterOf(hashes[i]))
  }

  /** What a request gets: the reply, if every lookup succeeds that it makes. */
  function Answer(
      filterOf: Hash -> int, c: seq<Entry>, hashes: seq<Hash>, dbError: bool, has: Hash -> bool): Option<seq<int>>
  {
    if Answers(c, hashes, dbError, has) then Some(Reply(filterOf, c, hashes)) else None
  }

  /** A cached reply is the reply of looking every block up. */
  lemma {:induction false} ReplyIsDirect(interval: nat, filterOf: Hash -> int, c: seq<Entry>, end: Header, n: nat)
    requires 0 < interval && CacheOk(interval, filterOf, c) && Mark(interval, n) <= Depth(end)
    ensures Reply(filterOf, c, Checkpoints(interval, end, n)) == Direct(filterOf, Checkpoints(interval, end, n))
  {
    var hashes := Checkpoints(interval, end, n);
    var f := Fork(c, hashes, n);
    forall i | 0 <= i < n ensures Reply(filterOf, c, hashes)[i] == filterOf(hashes[i]) {
      if i < f { SharedBelow(interval, filterOf, c, end, n, f, i); }
    }
  }

  lemma {:induction false} EntriesOk(interval: nat, filterOf: Hash -> int, end: Header, n: nat)
    requires 0 < interval && Mark(interval, n) <= Depth(end)
    ensures CacheOk(interval, filterOf, Entries(filterOf, Checkpoints(interval, end, n)))
  {
    var c := Entries(filterOf, Checkpoints(interval, end, n));
    forall i | 0 <= i < |c| ensures EntryOk(interval, filterOf, c, i) {
      CheckpointAt(interval, end, n, i);
      if 0 < i {
        CheckpointAt(interval, end, n, i - 1);
        AtHeightTwice(end, Mark(interval, i + 1), Mark(interval, i));
      }
    }
  }

  /** A request that is answered leaves the entries of its own branch, or the cache as it was. */
  lemma {:induction false} AnsweredKeeps(
      interval: nat, filterOf: Hash -> int, c: seq<Entry>, end: Header, n: nat, dbError: bool, has: Hash -> bool,
      roomy: bool)
    requires 0 < interval && CacheOk(interval, filterOf, c) && Mark(interval, n) <= Depth(end)
    requires Answers(c, Checkpoints(interval, end, n), dbError, has)
    ensures var hashes := Checkpoints(interval, end, n);
      After(filterOf, c, hashes, dbError, has, roomy) == if n <= |c| then c else Entries(filterOf, hashes)
    ensures CacheOk(interval, filterOf, After(filterOf, c, Checkpoints(interval, end, n), dbError, has, roomy))
  {
    var hashes := Checkpoints(interval, end, n);
    EntriesOk(interval, filterOf, end, n);
    if |c| < n {
      var f := Fork(c, hashes, n);
      var now := After(filterOf, c, hashes, dbError, has, roomy);
      forall i | 0 <= i < n ensures now[i] == Entries(filterOf, hashes)[i] {
        if i < f { SharedBelow(interval, filterOf, c, end, n, f, i); }
      }
      assert now == Entries(filterOf, hashes);
    }
  }

  /** An unanswered request breaks the cache exactly when it grew the slice in place, found some
      blocks in the index, and stopped at a missing one below the end of the old cache. */
  lemma {:induction false} UnansweredKeeps(
      interval: nat, filterOf: Hash -> int, c: seq<Entry>, end: Header, n: nat, dbError: bool, has: Hash -> bool,
      roomy: bool)
    requires 0 < interval && CacheOk(interval, filterOf, c) && Mark(interval, n) <= Depth(end)
    requires !Answers(c, Checkpoints(interval, end, n), dbError, has)
    ensures var hashes := Checkpoints(interval, end, n);
      var f := Fork(c, hashes, n);
      CacheOk(interval, filterOf, After(filterOf, c, hashes, dbError, has, roomy)) <==>
        !(roomy && !dbError && |c| < n && 0 < Available(has, hashes, f) && f + Available(has, hashes, f) < |c|)
  {
    var hashes := Checkpoints(interval, end, n);
    var f := Fork(c, hashes, n);
    var k := Available(has, hashes, f);
    var now := After(filterOf, c, hashes, dbError, has, roomy);
    if roomy && !dbError && |c| < n {
      if k == 0 {
        assert now == c;
      } else if f + k < |c| {
        assert now[f + k] == c[f + k] && EntryOk(interval, filterOf, c, f + k);
        assert !EntryOk(interval, filterOf, now, f + k);
      } else {
        OverwrittenOk(interval, filterOf, c, end, n, f, k);
      }
    }
  }

  /** Overwriting the cache to its end, or beyond, makes it the entries of the request's branch. */
  lemma {:induction false} OverwrittenOk(
      interval: nat, filterOf: Hash -> int, c: seq<Entry>, end: Header, n: nat, f: nat, k: nat)
    requires 0 < interval && CacheOk(interval, filterOf, c) && Mark(interval, n) <= Depth(end) && |c| < n
    requires f == Fork(c, Checkpoints(interval, end, n), n) && |c| <= f + k <= n
    ensures CacheOk(interval, filterOf, Overwritten(filterOf, c, Checkpoints(interval, end, n), f, k))
  {
    var hashes := Checkpoints(interval, end, n);
    var now, own := Overwritten(filterOf, c, hashes, f, k), Entries(filterOf, hashes);
    EntriesOk(interval, filterOf, end, n);
    forall i | 0 <= i < |c| ensures now[i] == own[i] {
      PrefixOk(interval, filterOf, c, end, n, f, i);
    }
    forall i | 0 <= i < |c| ensures EntryOk(interval, filterOf, now, i) {
      assert EntryOk(interval, filterOf, own, i);
    }
  }

  lemma {:induction false} PrefixOk(
      interval: nat, filterOf: Hash -> int, c: seq<Entry>, end: Header, n: nat, f: nat, i: nat)
    requires 0 < interval && CacheOk(interval, filterOf, c) && Mark(interval, n) <= Depth(end)
    requires f == Fork(c, Checkpoints(interval, end, n), n) && i < n
    ensures i < f ==> c[i] == Entries(filterOf, Checkpoints(interval, end, n))[i]
  {
    if i < f { SharedBelow(interval, filterOf, c, end, n, f, i); }
  }

  /** A cache with an old entry above one of another branch: the request for the block of the old
      entry is answered with the filter header of the other branch in place of its own. */
  lemma {:induction false} MixedMisleads(
      interval: nat, filterOf: Hash -> int, c: seq<Entry>, now: seq<Entry>, at: nat, other: Hash)
    requires 0 < interval && CacheOk(interval, filterOf, c) && 0 < at < |c| == |now|
    requires now[at] == c[at] && now[at - 1] == Entry(other, filterOf(other)) && other != c[at - 1].block
    ensures !CacheOk(interval, filterOf, now)
    ensures EntryOk(interval, filterOf, c, at) && Mark(interval, at + 1) <= Depth(c[at].block.header)
    ensures var asked := Checkpoints(interval, c[at].block.header, at + 1);
      && Reply(filterOf, now, asked)[at - 1] == filterOf(other)
      && Direct(filterOf, asked)[at - 1] == filterOf(c[at - 1].block)
  {
    assert EntryOk(interval, filterOf, c, at) && !EntryOk(interval, filterOf, now, at);
    var asked := Checkpoints(interval, c[at].block.header, at + 1);
    CheckpointAt(interval, c[at].block.header, at + 1, at);
    CheckpointAt(interval, c[at].block.header, at + 1, at - 1);
    assert Fork(now, asked, at + 1) == at + 1;
  }

  /** The first entry of the cache that a request which stops early does not reach. */
  function FirstLeft(interval: nat, c: seq<Entry>, q: Query): nat
    requires 0 < interval
  {
    var hashes := Asked(interval, q.end);
    var f := Fork(c, hashes, |hashes|);
    f + Available(q.has, hashes, f)
  }

  /** A breaking request leaves an old entry above an entry of its own branch. */
  lemma {:induction false} BrokenMixes(interval: nat, filterOf: Hash -> int, c: seq<Entry>, q: Query)
    requires 0 < interval && Breaks(interval, c, q)
    ensures var hashes, now, at := Asked(interval, q.end), Next(interval, filterOf, c, q), FirstLeft(interval, c, q);
      && 0 < at < |c| == |now| < |hashes| && now[at] == c[at]
      && now[at - 1] == Entry(hashes[at - 1], filterOf(hashes[at - 1])) && hashes[at - 1] != c[at - 1].block
  {
  }

  /** After a breaking request, the next request for the block of the first old entry left is
      answered with the filter header of the failed request's branch in place of its own. */
  lemma {:induction false} BrokenMisleads(interval: nat, filterOf: Hash -> int, c: seq<Entry>, q: Query)
    requires 0 < interval && CacheOk(interval, filterOf, c) && Breaks(interval, c, q)
    ensures var hashes, now, at := Asked(interval, q.end), Next(interval, filterOf, c, q), FirstLeft(interval, c, q);
      && 0 < at < |c| < |hashes| && c[at - 1].block != hashes[at - 1] && !CacheOk(interval, filterOf, now)
      && EntryOk(interval, filterOf, c, at) && Mark(interval, at + 1) <= Depth(c[at].block.header)
      && var asked := Checkpoints(interval, c[at].block.header, at + 1);
         && Reply(filterOf, now, asked)[at - 1] == filterOf(hashes[at - 1])
         && Direct(filterOf, asked)[at - 1] == filterOf(c[at - 1].block)
  {
    var hashes, now, at := Asked(interval, q.end), Next(interval, filterOf, c, q), FirstLeft(interval, c, q);
    BrokenMixes(interval, filterOf, c, q);
    MixedMisleads(interval, filterOf, c, now, at, hashes[at - 1]);
  }

  /** The failing family is not empty: two branches, with a gap in the index on the longer one. */
  lemma {:induction false} BreakingQuery() returns (filterOf: Hash -> int, c: seq<Entry>, q: Query)
    ensures CacheOk(1, filterOf, c) && Breaks(1, c, q) && !CacheOk(1, filterOf, Next(1, filterOf, c, q))
  {
    var g := Header(ZeroHash, 0, 0);
    var a1, b1 := Header(HashOf(g), 0, 1), Header(HashOf(g), 0, 3);
    var a2, b2 := Header(HashOf(a1), 0, 2), Header(HashOf(b1), 0, 4);
    var b3 := Header(HashOf(b2), 0, 5);
    filterOf, c, q := GapBreaks(g, a1, a2, b1, b2, b3);
  }

  lemma {:induction false} GapBreaks(g: Header, a1: Header, a2: Header, b1: Header, b2: Header, b3: Header)
    returns (filterOf: Hash -> int, c: seq<Entry>, q: Query)
    requires g.prev == ZeroHash && a1.prev == HashOf(g) && a2.prev == HashOf(a1) && a1 != b1 && a2 != b2
    requires b1.prev == HashOf(g) && b2.prev == HashOf(b1) && b3.prev == HashOf(b2) && b1 != b2
    ensures CacheOk(1, filterOf, c) && Breaks(1, c, q) && !CacheOk(1, filterOf, Next(1, filterOf, c, q))
  {
    Branch(g, a1, a2);
    LongBranch(g, b1, b2, b3);
    filterOf := (h: Hash) => if h.HashOf? then h.header.stamp else 0;
    c := [Entry(HashOf(a1), a1.stamp), Entry(HashOf(a2), a2.stamp)];
    q := Query(b3, false, (h: Hash) => h == HashOf(b1), true);
    assert EntryOk(1, filterOf, c, 0) && EntryOk(1, filterOf, c, 1);
    var hashes := [HashOf(b1), HashOf(b2), HashOf(b3)];
    assert Fork(c, hashes, 2) == 0 && Fork(c, hashes, 3) == 0;
    assert Available(q.has, hashes, 1) == 0 && Available(q.has, hashes, 0) == 1;
    UnansweredKeeps(1, filterOf, c, b3, 3, false, q.has, true);
  }

  lemma {:induction false} Branch(g: Header, a: Header, b: Header)
    requires g.prev == ZeroHash && a.prev == HashOf(g) && b.prev == HashOf(a)
    ensures Depth(a) == 1 == Mark(1, 1) && Depth(b) == 2 == Mark(1, 2) && AtHeight(b, 1) == a
  {
    assert Mark(1, 1) == Mark(1, 0) + 1;
  }

  lemma {:induction false} LongBranch(g: Header, a: Header, b: Header, c: Header)
    requires g.prev == ZeroHash && a.prev == HashOf(g) && b.prev == HashOf(a) && c.prev == HashOf(b)
    ensures Depth(c) == 3 == Mark(1, 3) && LastMark(1, 3) == 3
    ensures Checkpoints(1, c, 3) == [HashOf(a), HashOf(b), HashOf(c)]
  {
    Branch(g, a, b);
    MarkExact(1, 3);
    assert AtHeight(c, 1) == a && AtHeight(c, 2) == b;
    assert Checkpoints(1, c, 1) == [HashOf(a)];
    assert Checkpoints(1, c, 2) == [HashOf(a), HashOf(b)];
  }

  // ------------------------------------------------------------------ runs

  datatype Query = Query(end: Header, dbError: bool, has: Hash -> bool, roomy: bool)

  function Asked(interval: nat, end: Header): seq<Hash>
    requires 0 < interval
  {
    MarkBelow(interval, Depth(end));
    Checkpoints(interval, end, LastMark(interval, Depth(end)))
  }

  ghost predicate Breaks(interval: nat, c: seq<Entry>, q: Query)
    requires 0 < interval
  {
    var hashes := Asked(interval, q.end);
    var f := Fork(c, hashes, |hashes|);
    var k := Available(q.has, hashes, f);
    q.roomy && !q.dbError && f + k < |c| < |hashes| && 0 < k
  }

  ghost function Next(interval: nat, filterOf: Hash -> int, c: seq<Entry>, q: Query): seq<Entry>
    requires 0 < interval
  {
    After(filterOf, c, Asked(interval, q.end), q.dbError, q.has, q.roomy)
  }

  /** No request of the run breaks the cache that it meets. */
  ghost predicate NeverBreaks(interval: nat, filterOf: Hash -> int, c: seq<Entry>, qs: seq<Query>)
    requires 0 < interval
    decreases |qs|
  {
    qs == [] ||
    (!Breaks(interval, c, qs[0]) && NeverBreaks(interval, filterOf, Next(interval, filterOf, c, qs[0]), qs[1..]))
  }

  /** Every request of the run meets a good cache, and its reply is that of looking every block up. */
  ghost predicate AlwaysRight(interval: nat, filterOf: Hash -> int, c: seq<Entry>, qs: seq<Query>)
    requires 0 < interval
    decreases |qs|
  {
    CacheOk(interval, filterOf, c) &&
    (qs == [] || (Reply(filterOf, c, Asked(interval, qs[0].end)) == Direct(filterOf, Asked(interval, qs[0].end))
                  && AlwaysRight(interval, filterOf, Next(interval, filterOf, c, qs[0]), qs[1..])))
  }

  lemma {:induction false} StepRight(interval: nat, filterOf: Hash -> int, c: seq<Entry>, q: Query)
    requires 0 < interval && CacheOk(interval, filterOf, c) && !Breaks(interval, c, q)
    ensures CacheOk(interval, filterOf, Next(interval, filterOf, c, q))
    ensures Reply(filterOf, c, Asked(interval, q.end)) == Direct(filterOf, Asked(interval, q.end))
  {
    var n := LastMark(interval, Depth(q.end));
    MarkBelow(interval, Depth(q.end));
    ReplyIsDirect(interval, filterOf, c, q.end, n);
    if Answers(c, Asked(interval, q.end), q.dbError, q.has) {
      AnsweredKeeps(interval, filterOf, c, q.end, n, q.dbError, q.has, q.roomy);
    } else {
      UnansweredKeeps(interval, filterOf, c, q.end, n, q.dbError, q.has, q.roomy);
    }
  }

  /** Over any run of requests on any tree of blocks the cache stays right, and every answer is that
      of looking every block up, exactly if no request breaks the cache. */
  lemma {:induction false} RunRight(interval: nat, filterOf: Hash -> int, c: seq<Entry>, qs: seq<Query>)
    requires 0 < interval && CacheOk(interval, filterOf, c)
    ensures AlwaysRight(interval, filterOf, c, qs) <==> NeverBreaks(interval, filterOf, c, qs)
    decreases |qs|
  {
    if qs == [] {
    } else if Breaks(interval, c, qs[0]) {
      BrokenMisleads(interval, filterOf, c, qs[0]);
      assert !AlwaysRight(interval, filterOf, Next(interval, filterOf, c, qs[0]), qs[1..]);
    } else {
      StepRight(interval, filterOf, c, qs[0]);
      RunRight(interval, filterOf, Next(interval, filterOf, c, qs[0]), qs[1..]);
    }
  }

  /** In particular from the empty cache, if every lookup of the run succeeds. */
  lemma {:induction false} SucceedingRun(interval: nat, filterOf: Hash -> int, c: seq<Entry>, qs: seq<Query>)
    requires 0 < interval && CacheOk(interval, filterOf, c)
    requires forall q :: q in qs ==> !q.dbError && forall h :: q.has(h)
    ensures AlwaysRight(interval, filterOf, c, qs)
    decreases |qs|
  {
    if qs != [] {
      SucceedingAnswers(interval, c, qs[0]);
      StepRight(interval, filterOf, c, qs[0]);
      SucceedingRun(interval, filterOf, Next(interval, filterOf, c, qs[0]), qs[1..]);
    }
  }

  /** A request all of whose lookups succeed is answered and breaks nothing. */
  lemma {:induction false} SucceedingAnswers(interval: nat, c: seq<Entry>, q: Query)
    requires 0 < interval && !q.dbError && forall h :: q.has(h)
    ensures Answers(c, Asked(interval, q.end), q.dbError, q.has) && !Breaks(interval, c, q)
  {
    var hashes := Asked(interval, q.end);
    var k := Available(q.has, hashes, Fork(c, hashes, |hashes|));
  }

  // ------------------------------------------------------------------ the cache as a slice

  lemma {:induction false} ReplyRead(
      filterOf: Hash -> int, c: seq<Entry>, hashes: seq<Hash>, f: nat, message: seq<int>, looked: seq<int>)
    requires f == Fork(c, hashes, |hashes|) == |message| && |looked| == |hashes| - f
    requires forall i :: 0 <= i < f ==> message[i] == c[i].filter
    requires forall i :: f <= i < |hashes| ==> looked[i - f] == filterOf(hashes[i])
    ensures message + looked == Reply(filterOf, c, hashes)
  {
  }

  /** What a grown slice holds after the entries from f on were written as far as they were found. */
  lemma {:induction false} GrownView(
      filterOf: Hash -> int, c: seq<Entry>, hashes: seq<Hash>, f: nat, has: Hash -> bool, before: seq<Entry>,
      after: seq<Entry>)
    requires |c| < |hashes| == |before| == |after| && f == Fork(c, hashes, |hashes|)
    requires forall i :: 0 <= i < |c| ==> before[i] == c[i]
    requires forall i :: 0 <= i < |hashes| ==>
      after[i] == if f <= i < f + Available(has, hashes, f) then Entry(hashes[i], filterOf(hashes[i])) else before[i]
    ensures after[..|c|] == Overwritten(filterOf, c, hashes, f, Available(has, hashes, f))
    ensures f + Available(has, hashes, f) == |hashes| ==> after == After(filterOf, c, hashes, false, has, true)
  {
    var k, own := Available(has, hashes, f), Entries(filterOf, hashes);
    var over := Overwritten(filterOf, c, hashes, f, k);
    assert after[..|c|] == over;
    if f + k == |hashes| {
      forall i | |c| <= i < |hashes| ensures after[i] == own[i] {
        assert f <= |c|;
      }
      assert after == over + own[|c|..];
    }
  }

  class Cache {
    const genesis: Header
    const interval: nat
    const filterOf: Hash -> int
    /** A slice: its backing array, whose length is the capacity, and its length. */
    var backing: array<Entry>
    var length: nat

    constructor (genesis: Header, interval: nat, filterOf: Hash -> int)
      ensures this.genesis == genesis && this.interval == interval && this.filterOf == filterOf
      ensures fresh(backing) && length == 0 <= backing.Length
    {
      this.genesis, this.interval, this.filterOf := genesis, interval, filterOf;
      backing, length := new Entry[0], 0;
    }

    ghost function View(): seq<Entry>
      reads this, backing
      requires length <= backing.Length
    {
      backing[..length]
    }

    /** Answers a request for the checkpoints up to a block. spare is the extra capacity that the
        runtime gives when a slice has to be copied to grow. */
    method OnGetCFCheckpt(
        current: bool, regular: bool, stop: Option<Header>, best: seq<Header>, dbError: bool, has: Hash -> bool,
        spare: nat)
      returns (reply: Option<seq<int>>)
      requires length <= backing.Length && 0 < interval && IsChain(genesis, best) && genesis.prev == ZeroHash
      modifies this, backing
      ensures length <= backing.Length && (backing == old(backing) || fresh(backing))
      ensures !current || !regular || stop.None? ==> reply.None? && View() == old(View())
      ensures current && regular && stop.Some? ==>
        var hashes := Asked(interval, stop.value);
        && View() == After(filterOf, old(View()), hashes, dbError, has, |hashes| <= old(backing.Length))
        && reply == Answer(filterOf, old(View()), hashes, dbError, has)
        && (CacheOk(interval, filterOf, old(View())) && reply.Some? ==> reply.value == Direct(filterOf, hashes))
    {
      if !current || !regular || stop.None? {
        return None;
      }
      var hashes := IntervalBlockHashes(genesis, best, interval, stop.value);
      if CacheOk(interval, filterOf, View()) {
        ReplyIsDirect(interval, filterOf, View(), stop.value, |hashes|);
      }
      forall i | 0 <= i < |hashes| ensures hashes[i] != ZeroHash {
        CheckpointAt(interval, stop.value, |hashes|, i);
      }
      reply := Respond(hashes, dbError, has, spare);
    }

    method Respond(hashes: seq<Hash>, dbError: bool, has: Hash -> bool, spare: nat) returns (reply: Option<seq<int>>)
      requires length <= backing.Length && ZeroHash !in hashes
      modifies this, backing
      ensures length <= backing.Length && (backing == old(backing) || fresh(backing))
      ensures View() == After(filterOf, old(View()), hashes, dbError, has, |hashes| <= old(backing.Length))
      ensures reply == Answer(filterOf, old(View()), hashes, dbError, has)
    {
      if |hashes| > length {
        reply := RespondGrowing(hashes, dbError, has, spare);
      } else {
        reply := RespondAsIs(hashes, dbError, has);
      }
    }

    /** The cache is long enough and is only read. */
    method RespondAsIs(hashes: seq<Hash>, dbError: bool, has: Hash -> bool) returns (reply: Option<seq<int>>)
      requires |hashes| <= length <= backing.Length && ZeroHash !in hashes
      modifies backing
      ensures View() == old(View())
      ensures reply == Answer(filterOf, old(View()), hashes, dbError, has)
    {
      reply := Compose(backing, hashes, dbError, has, false, View());
      assert View() == old(View());
    }

    /** The slice grows first, and the new entries are written as they are found. */
    method RespondGrowing(hashes: seq<Hash>, dbError: bool, has: Hash -> bool, spare: nat)
      returns (reply: Option<seq<int>>)
      requires length < |hashes| && length <= backing.Length && ZeroHash !in hashes
      modifies this, backing
      ensures length <= backing.Length && (backing == old(backing) || fresh(backing))
      ensures View() == After(filterOf, old(View()), hashes, dbError, has, |hashes| <= old(backing.Length))
      ensures reply == Answer(filterOf, old(View()), hashes, dbError, has)
    {
      ghost var c := View();
      var cache := Append(|hashes| - length, spare);
      assert forall i :: 0 <= i < |c| ==> cache[i] == cache[..length][i];
      reply := Compose(cache, hashes, dbError, has, true, c);
      if reply.Some? {
        backing, length := cache, |hashes|;
      } else if cache == backing {
        assert backing[..length] == cache[..|hashes|][..length];
      }
    }

    /** The message: the shared part from the cache, the rest looked up. c is what the cache holds. */
    method Compose(
        cache: array<Entry>, hashes: seq<Hash>, dbError: bool, has: Hash -> bool, update: bool, ghost c: seq<Entry>)
      returns (reply: Option<seq<int>>)
      requires |hashes| <= cache.Length && ZeroHash !in hashes
      requires forall i :: 0 <= i < |hashes| ==> cache[i] == if i < |c| then c[i] else Entry(ZeroHash, 0)
      modifies cache
      ensures reply == (if Answers(c, hashes, dbError, has) then Some(Reply(filterOf, c, hashes)) else None)
      ensures !update ==> cache[..] == old(cache[..])
      ensures update && |c| < |hashes| && reply.Some? ==>
        cache[..|hashes|] == After(filterOf, c, hashes, dbError, has, true)
      ensures update && |c| < |hashes| && reply.None? ==>
        cache[..|hashes|][..|c|] == After(filterOf, c, hashes, dbError, has, true)
    {
      var f := FindFork(cache, hashes, c);
      var message := Shared(cache, f);
      ghost var before := cache[..|hashes|];
      if dbError {
        assert |c| < |hashes| ==> before[..|c|] == c;
        return None;
      }
      var looked, ok := Fill(cache, hashes, f, has, update);
      if update && |c| < |hashes| {
        GrownView(filterOf, c, hashes, f, has, before, cache[..|hashes|]);
      }
      if !ok {
        return None;
      }
      ReplyRead(filterOf, c, hashes, f, message, looked);
      return Some(message + looked);
    }

    method Shared(cache: array<Entry>, f: nat) returns (message: seq<int>)
      requires f <= cache.Length
      ensures |message| == f && forall i :: 0 <= i < f ==> message[i] == cache[i].filter
    {
      message := [];
      for i := 0 to f
        invariant |message| == i && forall j :: 0 <= j < i ==> message[j] == cache[j].filter
      {
        message := message + [cache[i].filter];
      }
    }

    /** Walks back to the last block that the cache has in the same place. */
    method FindFork(cache: array<Entry>, hashes: seq<Hash>, ghost c: seq<Entry>) returns (f: nat)
      requires |hashes| <= cache.Length && ZeroHash !in hashes
      requires forall i :: 0 <= i < |hashes| ==> cache[i] == if i < |c| then c[i] else Entry(ZeroHash, 0)
      ensures f == Fork(c, hashes, |hashes|)
    {
      f := |hashes|;
      while 0 < f && cache[f - 1].block != hashes[f - 1]
        invariant f <= |hashes| && Fork(c, hashes, f) == Fork(c, hashes, |hashes|)
      {
        f := f - 1;
      }
    }

    /** The rest of the message, looked up and, if asked, written to the cache as it is found. */
    method Fill(cache: array<Entry>, hashes: seq<Hash>, f: nat, has: Hash -> bool, update: bool)
      returns (looked: seq<int>, ok: bool)
      requires f <= |hashes| <= cache.Length
      modifies cache
      ensures ok <==> f + Available(has, hashes, f) == |hashes|
      ensures ok ==> |looked| == |hashes| - f && forall i :: f <= i < |hashes| ==> looked[i - f] == filterOf(hashes[i])
      ensures forall i :: 0 <= i < cache.Length ==>
        cache[i] == if update && f <= i < f + Available(has, hashes, f) then Entry(hashes[i], filterOf(hashes[i]))
                    else old(cache[i])
    {
      looked := [];
      for i := f to |hashes|
        invariant i + Available(has, hashes, i) == f + Available(has, hashes, f)
        invariant |looked| == i - f && forall n :: 0 <= n < |looked| ==> looked[n] == filterOf(hashes[f + n])
        invariant forall j :: 0 <= j < cache.Length ==>
          cache[j] == if update && f <= j < i then Entry(hashes[j], filterOf(hashes[j])) else old(cache[j])
      {
        if !has(hashes[i]) {
          return looked, false;
        }
        looked := looked + [filterOf(hashes[i])];
        if update {
          cache[i] := Entry(hashes[i], filterOf(hashes[i]));
        }
      }
      ok := true;
    }

    /** append: in place if the capacity allows, else into a copy. */
    method Append(n: nat, spare: nat) returns (cache: array<Entry>)
      requires length <= backing.Length
      modifies backing
      ensures length + n <= cache.Length && (if length + n <= backing.Length then cache == backing else fresh(cache))
      ensures cache[..length] == old(backing[..length]) && backing[..length] == old(backing[..length])
      ensures forall i :: length <= i < length + n ==> cache[i] == Entry(ZeroHash, 0)
    {
      if length + n <= backing.Length {
        cache := backing;
      } else {
        cache := new Entry[length + n + spare](i => Entry(ZeroHash, 0));
        for i := 0 to length
          invariant forall j :: 0 <= j < i ==> cache[j] == backing[j]
          invariant forall j :: length <= j < length + n ==> cache[j] == Entry(ZeroHash, 0)
          invariant backing[..length] == old(backing[..length])
        {
          cache[i] := backing[i];
        }
      }
      for i := length to length + n
        invariant cache[..length] == old(backing[..length]) && backing[..length] == old(backing[..length])
        invariant forall j :: length <= j < i ==> cache[j] == Entry(ZeroHash, 0)
      {
        cache[i] := Entry(ZeroHash, 0);
      }
    }
  }
}
