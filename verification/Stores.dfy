/** The two persistent header stores of the SPV client: flat files of block headers and
    of filter headers, with one shared hash-to-height index and one tip key each. */
module Stores {
  import opened Chain

  /** The index holds exactly the hashes of the block header file, each at its position. */
  ghost predicate Indexed(file: seq<Header>, index: map<Hash, nat>) {
    && (forall i :: 0 <= i < |file| ==> IndexedAt(file, index, i))
    && (forall k :: k in index ==> index[k] < |file| && k == HashOf(file[index[k]]))
  }

  predicate IndexedAt(file: seq<Header>, index: map<Hash, nat>, i: nat)
    requires i < |file|
  {
    HashOf(file[i]) in index && index[HashOf(file[i])] == i
  }

  lemma IndexedEverywhere(file: seq<Header>, index: map<Hash, nat>)
    requires Indexed(file, index)
    ensures forall i :: 0 <= i < |file| ==> HashOf(file[i]) in index && index[HashOf(file[i])] == i
  {
    forall i | 0 <= i < |file| ensures HashOf(file[i]) in index && index[HashOf(file[i])] == i {
      assert IndexedAt(file, index, i);
    }
  }

  function Headers(batch: seq<(Header, nat)>): (r: seq<Header>)
    ensures |r| == |batch|
  {
    seq(|batch|, i requires 0 <= i < |batch| => batch[i].0)
  }

  /** The batch is to be indexed under the heights start, start + 1, ... */
  ghost predicate Consecutive(batch: seq<(Header, nat)>, start: nat) {
    forall i :: 0 <= i < |batch| ==> batch[i].1 == start + i
  }

  lemma IndexedSnoc(file: seq<Header>, index: map<Hash, nat>, h: Header)
    requires Indexed(file, index) && h !in file
    ensures Indexed(file + [h], index[HashOf(h) := |file|])
  {
    var file', index' := file + [h], index[HashOf(h) := |file|];
    forall i | 0 <= i < |file'| ensures IndexedAt(file', index', i) {
      if i < |file| {
        assert IndexedAt(file, index, i) && file[i] in file;
      }
    }
    forall k | k in index' ensures index'[k] < |file'| && k == HashOf(file'[index'[k]]) {
      if k != HashOf(h) {
        assert file'[index[k]] == file[index[k]];
      }
    }
  }

  lemma IndexedWithoutTip(genesis: Header, file: seq<Header>, index: map<Hash, nat>)
    requires genesis.prev == ZeroHash && IsChain(genesis, file) && Indexed(file, index) && 1 < |file|
    ensures var file' := file[..|file| - 1];
      IsChain(genesis, file') && Indexed(file', index - {HashOf(Last(file))})
  {
    var file', index' := file[..|file| - 1], index - {HashOf(Last(file))};
    Distinct(genesis, file);
    PrefixIsChain(genesis, file, |file| - 1);
    forall i | 0 <= i < |file'| ensures IndexedAt(file', index', i) {
      assert IndexedAt(file, index, i) && file[i] != file[|file| - 1];
    }
  }

  /** Puts every header of a batch in the index and returns the highest one as the tip. */
  method AddEntries(index: map<Hash, nat>, batch: seq<(Header, nat)>, ghost file: seq<Header>)
    returns (newIndex: map<Hash, nat>, tip: Hash)
    requires batch != []
    ensures Fits(file, batch) && Indexed(file, index) ==>
      Indexed(file + Headers(batch), newIndex) && tip == HashOf(batch[|batch| - 1].0)
  {
    var height: nat := 0;
    newIndex, tip := index, ZeroHash;
    ghost var good := Fits(file, batch) && Indexed(file, index);
    assert file + Headers(batch[..0]) == file;
    for i := 0 to |batch|
      invariant good ==> Indexed(file + Headers(batch[..i]), newIndex)
      invariant good && 0 < i ==> tip == HashOf(batch[i - 1].0) && height == |file| + i - 1
      invariant i == 0 ==> height == 0
    {
      assert file + Headers(batch[..i + 1]) == file + Headers(batch[..i]) + [batch[i].0];
      if good {
        FitsPrefix(file, batch, i);
        IndexedSnoc(file + Headers(batch[..i]), newIndex, batch[i].0);
      }
      newIndex := newIndex[HashOf(batch[i].0) := batch[i].1];
      if batch[i].1 >= height {
        tip, height := HashOf(batch[i].0), batch[i].1;
      }
    }
    assert batch[..|batch|] == batch;
  }

  /** The batch continues the file: next heights, and no header repeated. */
  ghost predicate Fits(file: seq<Header>, batch: seq<(Header, nat)>) {
    var whole := file + Headers(batch);
    Consecutive(batch, |file|) && forall i, j :: 0 <= i < j < |whole| ==> whole[i] != whole[j]
  }

  lemma FitsPrefix(file: seq<Header>, batch: seq<(Header, nat)>, n: nat)
    requires Fits(file, batch) && n < |batch|
    ensures batch[n].0 !in file + Headers(batch[..n])
  {
    var whole, front := file + Headers(batch), file + Headers(batch[..n]);
    assert forall i :: 0 <= i < |front| ==> front[i] == whole[i] && whole[i] != whole[|front|];
  }

  datatype Health = Sound | Unsound

  /** Whether the file is a chain, the index exact, both tips right and the filter headers not
      ahead, as one value. */
  ghost function HealthOf(
      genesis: Header, file: seq<Header>, index: map<Hash, nat>, tip: Hash, filters: seq<FilterHeader>,
      filterTip: Hash): Health
  {
    if && genesis.prev == ZeroHash
       && IsChain(genesis, file)
       && Indexed(file, index)
       && tip == HashOf(Last(file))
       && 1 <= |filters| <= |file|
       && filterTip == HashOf(file[|filters| - 1])
    then Sound else Unsound
  }

  class ChainStores {
    const genesis: Header
    var file: seq<Header>
    var index: map<Hash, nat>
    var tip: Hash
    var filters: seq<FilterHeader>
    var filterTip: Hash

    /** Block headers form a chain from genesis, the index and both tip keys agree with
        the files, and filter headers do not lead block headers. */
    ghost predicate Valid()
      reads this
    {
      HealthOf(genesis, file, index, tip, filters, filterTip) == Sound
    }

    constructor (genesis: Header, filterRoot: FilterHeader)
      requires genesis.prev == ZeroHash
      ensures Valid()
      ensures this.genesis == genesis && file == [genesis] && filters == [filterRoot]
    {
      this.genesis := genesis;
      file, filters := [genesis], [filterRoot];
      index := map[HashOf(genesis) := 0];
      tip, filterTip := HashOf(genesis), HashOf(genesis);
    }

    function FetchHeader(hash: Hash): (r: Option<(Header, nat)>)
      reads this
      ensures Valid() ==> (r.Some? <==> hash.HashOf? && hash.header in file)
      ensures Valid() && r.Some? ==> r.value.1 < |file| && r.value.0 == file[r.value.1] == hash.header
    {
      assert Valid() ==> forall i :: 0 <= i < |file| ==> HashOf(file[i]) in index && index[HashOf(file[i])] == i by {
        if Valid() { IndexedEverywhere(file, index); }
      }
      if hash in index && index[hash] < |file| then Some((file[index[hash]], index[hash])) else None
    }

    function FetchHeaderByHeight(height: int): (r: Option<Header>)
      reads this
    {
      if 0 <= height < |file| then Some(file[height]) else None
    }

    function ChainTip(): (r: Option<(Header, nat)>)
      reads this
      ensures Valid() ==> r == Some((Last(file), |file| - 1))
    {
      assert Valid() ==> IndexedAt(file, index, |file| - 1);
      FetchHeader(tip)
    }

    function FilterChainTip(): (r: Option<(FilterHeader, nat)>)
      reads this
      ensures Valid() ==> r == Some((filters[|filters| - 1], |filters| - 1))
    {
      assert Valid() ==> IndexedAt(file, index, |filters| - 1);
      if filterTip in index && index[filterTip] < |filters|
      then Some((filters[index[filterTip]], index[filterTip])) else None
    }

    /** The count + 1 headers ending at the stop hash, and the height of the first. */
    function FetchHeaderAncestors(count: nat, stop: Hash): (r: Option<(seq<Header>, nat)>)
      reads this
      ensures forall h :: Valid() && count <= h < |file| && stop == HashOf(file[h]) ==>
        r == Some((file[h - count .. h + 1], h - count))
    {
      assert Valid() ==> forall i :: 0 <= i < |file| ==> HashOf(file[i]) in index && index[HashOf(file[i])] == i by {
        if Valid() { IndexedEverywhere(file, index); }
      }
      if stop in index && count <= index[stop] < |file|
      then Some((file[index[stop] - count .. index[stop] + 1], index[stop] - count)) else None
    }

    /** The same for the hash of a stored header, both ways. */
    lemma {:induction false} AncestorsAt(count: nat, at: nat)
      requires Valid() && at < |file|
      ensures FetchHeaderAncestors(count, HashOf(file[at])) ==
        if count <= at then Some((file[at - count .. at + 1], at - count)) else None
    {
      IndexedEverywhere(file, index);
    }

    /** Appends a batch of headers, each given with the height to index it under. */
    method WriteHeaders(batch: seq<(Header, nat)>)
      modifies this`file, this`index, this`tip
      ensures file == old(file) + Headers(batch)
      ensures batch == [] ==> unchanged(this)
      ensures old(Valid()) && IsChain(genesis, file) && Consecutive(batch, |old(file)|) ==> Valid()
    {
      if batch == [] {
        return;
      }
      var newIndex, newTip := AddEntries(index, batch, file);
      file := file + Headers(batch);
      if genesis.prev == ZeroHash && IsChain(genesis, file) {
        Distinct(genesis, file);
      }
      index, tip := newIndex, newTip;
    }

    /** Removes the tip header from file and index and returns the new tip's hash and height. */
    method RollbackLastBlock() returns (r: Option<(Hash, nat)>)
      modifies this`file, this`index, this`tip
      ensures old(Valid()) && 1 < |old(file)| ==>
        && r == Some((HashOf(old(file)[|old(file)| - 2]), |old(file)| - 2))
        && file == old(file)[..|old(file)| - 1]
        && IsChain(genesis, file) && Indexed(file, index) && tip == HashOf(Last(file))
      ensures r.Some? ==> |file| < |old(file)|
      ensures r.None? ==> unchanged(this)
    {
      ghost var good := Valid() && 1 < |file|;
      assert good ==> IndexedAt(file, index, |file| - 1);
      if tip !in index || index[tip] == 0 || index[tip] >= |file| {
        return None;
      }
      var height := index[tip];
      var prevHash, removed := HashOf(file[height - 1]), HashOf(file[height]);
      if good { IndexedWithoutTip(genesis, file, index); }
      file := file[..|file| - 1];
      index := index - {removed};
      tip := prevHash;
      return Some((prevHash, height - 1));
    }

    /** Drops the last filter header and points the filter tip at the given block. */
    method RollbackLastFilter(newTip: Hash) returns (r: Option<nat>)
      modifies this`filters, this`filterTip
      ensures old(Valid()) && 1 < |old(filters)| ==>
        r == Some(|old(filters)| - 2) && filters == old(filters)[..|old(filters)| - 1] && filterTip == newTip
      ensures r.None? ==> unchanged(this)
    {
      assert Valid() ==> IndexedAt(file, index, |filters| - 1);
      if filterTip !in index || index[filterTip] == 0 || index[filterTip] > |filters| {
        return None;
      }
      r := Some(index[filterTip] - 1);
      filters := filters[..|filters| - 1];
      filterTip := newTip;
    }

    /** Appends filter headers and points the filter tip at the last one's block. */
    method WriteFilterHeaders(batch: seq<FilterHeader>, lastBlock: Hash)
      modifies this`filters, this`filterTip
      ensures filters == old(filters) + batch
      ensures old(Valid()) && batch != [] && |filters| <= |file| && lastBlock == HashOf(file[|filters| - 1]) ==> Valid()
      ensures batch == [] ==> unchanged(this)
    {
      if batch == [] {
        return;
      }
      filters := filters + batch;
      filterTip := lastBlock;
    }
  }
}
