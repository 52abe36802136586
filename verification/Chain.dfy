/** Block headers, filter headers and hash-linked chains of them.

    A hash is modelled as a free constructor over what it hashes, so two hashes are
    equal exactly when their preimages are, no hash is zero, and no header is its
    own ancestor. */
module Chain {

  datatype Option<+T> = None | Some(value: T)

  /** chainhash.Hash of a block header; ZeroHash is the all-zero hash. */
  datatype Hash = ZeroHash | HashOf(header: Header)

  datatype Header = Header(prev: Hash, bits: nat, stamp: int)

  /** A BIP 157 filter header: FilterNode(f, p) stands for dsha256(f || p). */
  datatype FilterHeader = FilterRoot(id: int) | FilterNode(filterHash: int, prev: FilterHeader)

  /** An output of a transaction. */
  datatype OutPoint = OutPoint(txid: int, index: nat)

  lemma {:induction false} SubsetIsFewer<T>(a: set<T>, b: set<T>)
    requires a <= b
    ensures |a| <= |b|
  {
    assert b == a + (b - a);
  }

  // ---------- chains of block headers ----------

  predicate LinkAt(c: seq<Header>, i: nat)
    requires 0 < i < |c|
  {
    c[i].prev == HashOf(c[i - 1])
  }

  ghost predicate Linked(c: seq<Header>) {
    forall i :: 0 < i < |c| ==> LinkAt(c, i)
  }

  /** A hash-linked chain whose position 0 holds the genesis header. */
  ghost predicate IsChain(genesis: Header, c: seq<Header>) {
    0 < |c| && c[0] == genesis && Linked(c)
  }

  function Last(c: seq<Header>): Header
    requires 0 < |c|
  {
    c[|c| - 1]
  }

  /** Number of PrevBlock links from h down to a header without a parent. */
  function Depth(h: Header): nat {
    match h.prev
    case ZeroHash => 0
    case HashOf(p) => 1 + Depth(p)
  }

  lemma {:induction false} DepthIsHeight(genesis: Header, c: seq<Header>, i: nat)
    requires IsChain(genesis, c) && genesis.prev == ZeroHash
    requires i < |c|
    ensures Depth(c[i]) == i
  {
    if i != 0 {
      DepthIsHeight(genesis, c, i - 1);
      assert LinkAt(c, i);
    }
  }

  /** No header occurs twice in a chain, so a hash has one height. */
  lemma Distinct(genesis: Header, c: seq<Header>)
    requires IsChain(genesis, c) && genesis.prev == ZeroHash
    ensures forall i, j :: 0 <= i < j < |c| ==> c[i] != c[j]
  {
    forall i, j | 0 <= i < j < |c| ensures c[i] != c[j] {
      DepthIsHeight(genesis, c, i);
      DepthIsHeight(genesis, c, j);
    }
  }

  /** The header reached by following PrevBlock n times. */
  function Ancestor(h: Header, n: nat): Option<Header>
    decreases n
  {
    if n == 0 then Some(h)
    else match h.prev
      case ZeroHash => None
      case HashOf(p) => Ancestor(p, n - 1)
  }

  lemma {:induction false} AncestorInChain(c: seq<Header>, i: nat, n: nat)
    requires Linked(c) && n <= i < |c|
    ensures Ancestor(c[i], n) == Some(c[i - n])
    decreases n
  {
    if n != 0 {
      assert LinkAt(c, i);
      AncestorInChain(c, i - 1, n - 1);
    }
  }

  lemma {:induction false} AncestorBelowGenesis(genesis: Header, c: seq<Header>, i: nat, n: nat)
    requires IsChain(genesis, c) && genesis.prev == ZeroHash
    requires i < n && i < |c|
    ensures Ancestor(c[i], n) == None
    decreases n
  {
    if i != 0 {
      assert LinkAt(c, i);
      AncestorBelowGenesis(genesis, c, i - 1, n - 1);
    }
  }

  lemma LinkedConcat(a: seq<Header>, b: seq<Header>)
    requires Linked(a) && Linked(b)
    requires 0 < |a| && 0 < |b| ==> b[0].prev == HashOf(Last(a))
    ensures Linked(a + b)
  {
    var c := a + b;
    forall i | 0 < i < |c| ensures LinkAt(c, i) {
      if i < |a| {
        assert LinkAt(a, i);
      } else if |a| < i {
        assert LinkAt(b, i - |a|);
      }
    }
  }

  lemma LinkedSlice(c: seq<Header>, low: nat, high: nat)
    requires Linked(c) && low <= high <= |c|
    ensures Linked(c[low..high])
  {
    forall i | 0 < i < high - low ensures LinkAt(c[low..high], i) {
      assert LinkAt(c, low + i);
    }
  }

  lemma PrefixIsChain(genesis: Header, c: seq<Header>, n: nat)
    requires IsChain(genesis, c) && 0 < n <= |c|
    ensures IsChain(genesis, c[..n])
  {
    LinkedSlice(c, 0, n);
    assert c[0..n] == c[..n];
  }

  // ---------- work ----------

  /** Sum of the work of a run of headers; work is blockchain.CalcWork of the bits. */
  function WorkSum(work: nat -> nat, c: seq<Header>): nat {
    if c == [] then 0 else work(c[0].bits) + WorkSum(work, c[1..])
  }

  lemma {:induction false} WorkSumConcat(work: nat -> nat, a: seq<Header>, b: seq<Header>)
    ensures WorkSum(work, a + b) == WorkSum(work, a) + WorkSum(work, b)
  {
    if a == [] {
      assert a + b == b;
    } else {
      WorkSumConcat(work, a[1..], b);
      assert (a + b)[1..] == a[1..] + b;
    }
  }

  lemma {:induction false} WorkSumFrom(work: nat -> nat, c: seq<Header>, i: nat)
    requires i < |c|
    ensures WorkSum(work, c[i..]) == work(c[i].bits) + WorkSum(work, c[i + 1..])
  {
    assert c[i..][1..] == c[i + 1..];
  }
}
