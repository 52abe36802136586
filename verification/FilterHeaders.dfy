/** BIP 157 filter headers: folding filter hashes into headers, chains of filter headers,
    and the split of a height range into queries bounded by filter checkpoints. */
module FilterHeaders {
  import opened Chain

  // ---------- folding ----------

  /** header = dsha256(filterHash || prevHeader), over all hashes in order. */
  function Fold(prev: FilterHeader, hashes: seq<int>): FilterHeader {
    if hashes == [] then prev
    else FilterNode(hashes[|hashes| - 1], Fold(prev, hashes[..|hashes| - 1]))
  }

  /** Every header on the way, the last one being the fold. */
  function Folds(prev: FilterHeader, hashes: seq<int>): (r: seq<FilterHeader>)
    ensures |r| == |hashes|
  {
    if hashes == [] then [] else Folds(prev, hashes[..|hashes| - 1]) + [Fold(prev, hashes)]
  }

  /** Folding a prefix and then the rest is folding the whole. */
  lemma {:induction false} FoldConcat(prev: FilterHeader, a: seq<int>, b: seq<int>)
    ensures Fold(prev, a + b) == Fold(Fold(prev, a), b)
    decreases |b|
  {
    if b == [] {
      assert a + b == a;
    } else {
      FoldConcat(prev, a, b[..|b| - 1]);
      assert (a + b)[..|a + b| - 1] == a + b[..|b| - 1];
    }
  }

  function FilterDepth(h: FilterHeader): nat {
    match h
    case FilterRoot(_) => 0
    case FilterNode(_, prev) => 1 + FilterDepth(prev)
  }

  lemma {:induction false} FoldDepth(prev: FilterHeader, hashes: seq<int>)
    ensures FilterDepth(Fold(prev, hashes)) == FilterDepth(prev) + |hashes|
  {
    if hashes != [] {
      FoldDepth(prev, hashes[..|hashes| - 1]);
    }
  }

  /** The header reached determines the hashes that lead to it. */
  lemma {:induction false} FoldInjective(prev: FilterHeader, a: seq<int>, b: seq<int>)
    requires Fold(prev, a) == Fold(prev, b)
    ensures a == b
  {
    FoldDepth(prev, a);
    FoldDepth(prev, b);
    if a != [] {
      FoldInjective(prev, a[..|a| - 1], b[..|b| - 1]);
    }
  }

  // ---------- chains of filter headers ----------

  predicate FilterLinkAt(c: seq<FilterHeader>, i: nat)
    requires 0 < i < |c|
  {
    c[i].FilterNode? && c[i].prev == c[i - 1]
  }

  ghost predicate FilterChain(c: seq<FilterHeader>) {
    forall i :: 0 < i < |c| ==> FilterLinkAt(c, i)
  }

  /** The filter hashes that lead from c[low] to c[high]. */
  function Hashes(c: seq<FilterHeader>, low: nat, high: nat): (r: seq<int>)
    requires low <= high < |c|
    ensures |r| == high - low
    decreases high
  {
    if low == high then []
    else Hashes(c, low, high - 1) + [if c[high].FilterNode? then c[high].filterHash else 0]
  }

  lemma {:induction false} FoldHashes(c: seq<FilterHeader>, low: nat, high: nat)
    requires FilterChain(c) && low <= high < |c|
    ensures Fold(c[low], Hashes(c, low, high)) == c[high]
    decreases high
  {
    if low < high {
      FoldHashes(c, low, high - 1);
      assert FilterLinkAt(c, high);
      var front := Hashes(c, low, high - 1);
      assert Hashes(c, low, high) == front + [c[high].filterHash];
      assert Hashes(c, low, high)[..|front|] == front;
    }
  }

  lemma {:induction false} FoldsHashes(c: seq<FilterHeader>, low: nat, high: nat)
    requires FilterChain(c) && low <= high < |c|
    ensures Folds(c[low], Hashes(c, low, high)) == c[low + 1 .. high + 1]
    decreases high
  {
    if low < high {
      var front := Hashes(c, low, high - 1);
      FoldsHashes(c, low, high - 1);
      FoldHashes(c, low, high);
      assert Hashes(c, low, high)[..|front|] == front;
      assert c[low + 1 .. high + 1] == c[low + 1 .. high] + [c[high]];
    }
  }

  lemma {:induction false} HashesTail(c: seq<FilterHeader>, low: nat, mid: nat, high: nat)
    requires low <= mid <= high < |c|
    ensures Hashes(c, low, high)[mid - low..] == Hashes(c, mid, high)
    decreases high
  {
    if mid < high {
      HashesTail(c, low, mid, high - 1);
    }
  }

  // ---------- marks: the heights of checkpoints ----------

  /** The height of checkpoint k, which is k * interval; checkpoint 0 stands for genesis. */
  function Mark(interval: nat, k: nat): nat {
    if k == 0 then 0 else Mark(interval, k - 1) + interval
  }

  /** The last checkpoint at or below a height, which is height / interval. */
  function LastMark(interval: nat, height: nat): nat
    requires 0 < interval
  {
    if height < interval then 0 else 1 + LastMark(interval, height - interval)
  }

  lemma {:induction false} MarkIsProduct(interval: nat, k: nat)
    ensures Mark(interval, k) == k * interval
  {
    if k != 0 { MarkIsProduct(interval, k - 1); }
  }

  lemma QuotientBounds(interval: nat, height: nat)
    requires 0 < interval
    ensures (height / interval) * interval <= height < (height / interval) * interval + interval
  {
  }

  /** The mark at or below a height is unique. */
  lemma {:induction false} MarkUnique(interval: nat, height: nat, k: nat)
    requires 0 < interval && Mark(interval, k) <= height < Mark(interval, k) + interval
    ensures k == LastMark(interval, height)
  {
    var q := LastMark(interval, height);
    MarkBelow(interval, height);
    if q < k { MarkMono(interval, q, k); }
    if k < q { MarkMono(interval, k, q); }
  }

  lemma {:induction false} LastMarkIsQuotient(interval: nat, height: nat)
    requires 0 < interval
    ensures LastMark(interval, height) == height / interval
  {
    var q := height / interval;
    QuotientBounds(interval, height);
    MarkIsProduct(interval, q);
    MarkUnique(interval, height, q);
  }

  /** height / interval. */
  method Quotient(height: nat, interval: nat) returns (q: nat)
    requires 0 < interval
    ensures q == LastMark(interval, height)
  {
    LastMarkIsQuotient(interval, height);
    q := height / interval;
  }

  lemma {:induction false} MarkMono(interval: nat, a: nat, b: nat)
    requires a < b && 0 < interval
    ensures Mark(interval, a) + interval <= Mark(interval, b)
    decreases b
  {
    if a < b - 1 {
      MarkMono(interval, a, b - 1);
    }
  }

  lemma {:induction false} MarkBelow(interval: nat, height: nat)
    requires 0 < interval
    ensures var k := LastMark(interval, height); Mark(interval, k) <= height < Mark(interval, k) + interval
  {
    if interval <= height {
      MarkBelow(interval, height - interval);
    }
  }

  lemma {:induction false} MarkExact(interval: nat, k: nat)
    requires 0 < interval
    ensures LastMark(interval, Mark(interval, k)) == k
  {
    MarkUnique(interval, Mark(interval, k), k);
  }
}
