/**
 * The notification manager of the websocket server (node/rpcwebsocket.go): which client wants to
 * hear of which outpoint and address. Every request is kept twice, in an index from what is
 * watched to the clients and in the record of the client.
 */
module Notifications {
  import opened Chain
  import opened Rescan

  datatype ClientId = ClientId(id: int)

  // ------------------------------------------------------------------ a two-way index

  ghost predicate ListedAt<K>(watched: map<K, set<ClientId>>, c: ClientId, k: K) {
    k in watched && c in watched[k]
  }

  ghost predicate RecordedAt<K>(requests: map<ClientId, set<K>>, c: ClientId, k: K) {
    c in requests && k in requests[c]
  }

  ghost predicate BothAt<K>(
      watched: map<K, set<ClientId>>, requests: map<ClientId, set<K>>, pairs: set<(ClientId, K)>, c: ClientId, k: K)
  {
    (ListedAt(watched, c, k) <==> (c, k) in pairs) && (RecordedAt(requests, c, k) <==> (c, k) in pairs)
  }

  /** Both sides hold the same requests, and no listed entry is empty. */
  ghost predicate TwoWay<K(
      !new)>(watched: map<K, set<ClientId>>, requests: map<ClientId, set<K>>, pairs: set<(ClientId, K)>)
  {
    && (forall c, k :: BothAt(watched, requests, pairs, c, k))
    && (forall k :: k in watched ==> watched[k] != {})
  }

  class Index<K(==, !new)> {
    var watched: map<K, set<ClientId>>
    var requests: map<ClientId, set<K>>
    /** The requests in force. */
    ghost var pairs: set<(ClientId, K)>

    constructor ()
      ensures Valid() && pairs == {}
    {
      watched, requests, pairs := map[], map[], {};
    }

    ghost predicate Valid()
      reads this
    {
      TwoWay(watched, requests, pairs)
    }

    /** Records a request with the client and lists the client. */
    method Add(c: ClientId, k: K)
      requires Valid()
      modifies this
      ensures Valid() && pairs == old(pairs) + {(c, k)}
    {
      ghost var w, r, p := watched, requests, pairs;
      requests := requests[c := (if c in requests then requests[c] else {}) + {k}];
      watched := watched[k := (if k in watched then watched[k] else {}) + {c}];
      pairs := pairs + {(c, k)};
      forall c', k' ensures BothAt(watched, requests, pairs, c', k') {
        assert BothAt(w, r, p, c', k');
      }
    }

    /** Removes a request from the client's record and the client from the list; the last client takes
        the entry with it. */
    method Remove(c: ClientId, k: K)
      requires Valid()
      modifies this
      ensures Valid() && pairs == old(pairs) - {(c, k)}
      ensures watched.Keys <= old(watched).Keys
    {
      ghost var w, r, p := watched, requests, pairs;
      if c in requests {
        requests := requests[c := requests[c] - {k}];
      }
      pairs := pairs - {(c, k)};
      if k in watched {
        var clients := watched[k] - {c};
        watched := if clients == {} then watched - {k} else watched[k := clients];
      }
      forall c', k' ensures BothAt(watched, requests, pairs, c', k') {
        assert BothAt(w, r, p, c', k');
        assert k in w && c' in w[k] && c' != c ==> c' in w[k] - {c};
      }
    }

    /** Removes every request of a client. */
    method RemoveClient(c: ClientId)
      requires Valid()
      modifies this
      ensures Valid() && forall p :: p in pairs <==> p in old(pairs) && p.0 != c
    {
      var left := if c in requests then requests[c] else {};
      forall k ensures (c, k) in pairs <==> k in left { assert BothAt(watched, requests, pairs, c, k); }
      assert forall p :: p in pairs && p.0 == c ==> p == (c, p.1);
      while left != {}
        invariant Valid()
        invariant forall p :: p in pairs <==> p in old(pairs) && (p.0 == c ==> p.1 in left)
        invariant forall k :: k in left ==> (c, k) in old(pairs)
        decreases left
      {
        var k :| k in left;
        left := left - {k};
        Remove(c, k);
      }
    }
  }

  // ------------------------------------------------------------------ transactions

  /** What a client has asked for. */
  ghost function Of<K>(pairs: set<(ClientId, K)>, c: ClientId): set<K> {
    set p | p in pairs && p.0 == c :: p.1
  }

  lemma {:induction false} InOf<K>(pairs: set<(ClientId, K)>, c: ClientId, k: K)
    ensures k in Of(pairs, c) <==> (c, k) in pairs
  {
    if k in Of(pairs, c) {
      var p :| p in pairs && p.0 == c && p.1 == k;
      assert p == (c, k);
    }
    if (c, k) in pairs { assert (c, k).1 == k; }
  }

  /** No transaction spends an output of itself or of a later one. */
  ghost predicate DependencyOrdered(txs: seq<Tx>) {
    forall j, k, op :: 0 <= k <= j < |txs| && Spends(txs[k], op) ==> op.txid != txs[j].txid
  }

  /** pairs are the requests for outpoints after the transactions, from before: for every client they
      are what a rescan for its addresses makes of its outpoints. */
  ghost predicate Follows(
      before: set<(ClientId, OutPoint)>, addrs: set<(ClientId, Addr)>, txs: seq<Tx>, pairs: set<(ClientId, OutPoint)>)
  {
    forall c, op :: FollowsAt(before, addrs, txs, pairs, c, op)
  }

  ghost predicate FollowsAt(
      before: set<(ClientId, OutPoint)>, addrs: set<(ClientId, Addr)>, txs: seq<Tx>, pairs: set<(ClientId, OutPoint)>,
      c: ClientId, op: OutPoint)
  {
    (c, op) in pairs <==> InAfter(Of(before, c), Of(addrs, c), txs, op)
  }

  /** The client hears of a transaction: it watches an input or an address that is paid. */
  ghost predicate Hears(ops: set<(ClientId, OutPoint)>, addrs: set<(ClientId, Addr)>, tx: Tx, c: ClientId) {
    || (exists i :: 0 <= i < |tx.ins| && (c, tx.ins[i]) in ops)
    || (exists op: OutPoint :: Pays(tx, Of(addrs, c), op))
  }

  /** The clients told of transaction n of a block are those that watch, by what the transactions
      before it made of the requests, one of its inputs, or an address that it pays. */
  ghost predicate ToldRightly(
      before: set<(ClientId, OutPoint)>, addrs: set<(ClientId, Addr)>, txs: seq<Tx>, n: nat, told: set<ClientId>)
    requires n < |txs|
  {
    forall c :: c in told <==> HearsInBlock(before, addrs, txs, n, c)
  }

  ghost predicate HearsInBlock(
      before: set<(ClientId, OutPoint)>, addrs: set<(ClientId, Addr)>, txs: seq<Tx>, n: nat, c: ClientId)
    requires n < |txs|
  {
    || (exists i :: 0 <= i < |txs[n].ins| && InAfter(Of(before, c), Of(addrs, c), txs[..n], txs[n].ins[i]))
    || (exists op: OutPoint :: Pays(txs[n], Of(addrs, c), op))
  }

  lemma {:induction false} ToldIs(
      before: set<(ClientId, OutPoint)>, addrs: set<(ClientId, Addr)>, txs: seq<Tx>, n: nat,
      ops: set<(ClientId, OutPoint)>, told: set<ClientId>)
    requires n < |txs| && Follows(before, addrs, txs[..n], ops)
    requires forall c :: c in told <==> Hears(ops, addrs, txs[n], c)
    ensures ToldRightly(before, addrs, txs, n, told)
  {
    var tx := txs[n];
    forall c ensures c in told <==> HearsInBlock(before, addrs, txs, n, c) {
      forall i | 0 <= i < |tx.ins|
        ensures (c, tx.ins[i]) in ops <==> InAfter(Of(before, c), Of(addrs, c), txs[..n], tx.ins[i])
      {
        assert FollowsAt(before, addrs, txs[..n], ops, c, tx.ins[i]);
      }
    }
  }

  lemma {:induction false} FollowsMore(
      before: set<(ClientId, OutPoint)>, addrs: set<(ClientId, Addr)>, txs: seq<Tx>, tx: Tx,
      pairs: set<(ClientId, OutPoint)>, pairs': set<(ClientId, OutPoint)>)
    requires Follows(before, addrs, txs, pairs)
    requires forall p :: p in pairs' <==> (p in pairs && !Spends(tx, p.1)) || Pays(tx, Of(addrs, p.0), p.1)
    ensures Follows(before, addrs, txs + [tx], pairs')
  {
    assert (txs + [tx])[..|txs|] == txs;
    forall c, op ensures FollowsAt(before, addrs, txs + [tx], pairs', c, op) {
      assert FollowsAt(before, addrs, txs, pairs, c, op);
    }
  }

  lemma {:induction false} FollowsNone(before: set<(ClientId, OutPoint)>, addrs: set<(ClientId, Addr)>)
    ensures Follows(before, addrs, [], before)
  {
    forall c, op ensures FollowsAt(before, addrs, [], before, c, op) { InOf(before, c, op); }
  }

  /** After a block whose transactions are in order of dependency, nothing it spends is watched. */
  lemma {:induction false} SpentIsForgotten(
      before: set<(ClientId, OutPoint)>, addrs: set<(ClientId, Addr)>, txs: seq<Tx>, pairs: set<(ClientId, OutPoint)>,
      c: ClientId, op: OutPoint)
    requires Follows(before, addrs, txs, pairs) && DependencyOrdered(txs) && SpentIn(txs, op)
    ensures (c, op) !in pairs
  {
    assert FollowsAt(before, addrs, txs, pairs, c, op);
    OrderedTxs(Of(addrs, c), txs, op);
    FinalAt(Of(before, c), Of(addrs, c), txs, op);
  }

  // ------------------------------------------------------------------ the manager

  datatype Event =
    | RegisterClient(client: ClientId)
    | UnregisterClient(client: ClientId)
    | RegisterBlocks(client: ClientId)
    | UnregisterBlocks(client: ClientId)
    | RegisterNewTxs(client: ClientId)
    | UnregisterNewTxs(client: ClientId)
    | RegisterSpent(client: ClientId, ops: seq<OutPoint>)
    | UnregisterSpent(client: ClientId, op: OutPoint)
    | RegisterAddrs(client: ClientId, names: seq<Addr>)
    | UnregisterAddr(client: ClientId, name: Addr)
    | BlockConnected(txs: seq<Tx>)
    | TxAccepted(tx: Tx)

  /** Who has asked for what. */
  datatype Subscriptions = Subscriptions(
    ops: set<(ClientId, OutPoint)>,
    addrs: set<(ClientId, Addr)>,
    clients: set<ClientId>,
    blocks: set<ClientId>,
    newTxs: set<ClientId>)

  /** What an event makes of the subscriptions. */
  ghost predicate Changes(s: Subscriptions, e: Event, s': Subscriptions) {
    match e
    case RegisterClient(c) => s' == s.(clients := s.clients + {c})
    case UnregisterClient(c) =>
      && (forall p :: p in s'.ops <==> p in s.ops && p.0 != c)
      && (forall p :: p in s'.addrs <==> p in s.addrs && p.0 != c)
      && s'.clients == s.clients - {c} && s'.blocks == s.blocks - {c} && s'.newTxs == s.newTxs - {c}
    case RegisterBlocks(c) => s' == s.(blocks := s.blocks + {c})
    case UnregisterBlocks(c) => s' == s.(blocks := s.blocks - {c})
    case RegisterNewTxs(c) => s' == s.(newTxs := s.newTxs + {c})
    case UnregisterNewTxs(c) => s' == s.(newTxs := s.newTxs - {c})
    case RegisterSpent(c, outpoints) =>
      s' == s.(ops := s'.ops) && forall p :: p in s'.ops <==> p in s.ops || (p.0 == c && p.1 in outpoints)
    case UnregisterSpent(c, op) => s' == s.(ops := s.ops - {(c, op)})
    case RegisterAddrs(c, names) =>
      s' == s.(addrs := s'.addrs) && forall p :: p in s'.addrs <==> p in s.addrs || (p.0 == c && p.1 in names)
    case UnregisterAddr(c, name) => s' == s.(addrs := s.addrs - {(c, name)})
    case BlockConnected(txs) => s' == s.(ops := s'.ops) && Follows(s.ops, s.addrs, txs, s'.ops)
    case TxAccepted(tx) =>
      s' == s.(ops := s'.ops) && forall p :: p in s'.ops <==> p in s.ops || Pays(tx, Of(s.addrs, p.0), p.1)
  }

  /** Who is told of the transactions of an event. */
  ghost predicate Tells(s: Subscriptions, e: Event, told: seq<set<ClientId>>) {
    match e
    case BlockConnected(txs) =>
      |told| == |txs| && forall n :: 0 <= n < |txs| ==> ToldRightly(s.ops, s.addrs, txs, n, told[n])
    case TxAccepted(tx) => |told| == 1 && forall c :: c in told[0] <==> Hears(s.ops, s.addrs, tx, c)
    case _ => told == []
  }

  /** The subscriptions before event i of a run and after it. */
  ghost predicate ChangesAt(events: seq<Event>, trace: seq<Subscriptions>, i: nat)
    requires i < |events| && i + 1 < |trace|
  {
    Changes(trace[i], events[i], trace[i + 1])
  }

  /** Who is told of the transactions of event i of a run. */
  ghost predicate TellsAt(events: seq<Event>, trace: seq<Subscriptions>, told: seq<seq<set<ClientId>>>, i: nat)
    requires i < |events| && i < |trace| && i < |told|
  {
    Tells(trace[i], events[i], told[i])
  }

  /** The client has asked for nothing. */
  ghost predicate Absent(s: Subscriptions, c: ClientId) {
    && Of(s.ops, c) == {} && Of(s.addrs, c) == {} && c !in s.clients && c !in s.blocks && c !in s.newTxs
  }

  /** Only an event of its own makes a client ask for something. */
  predicate Names(e: Event, c: ClientId) {
    !e.BlockConnected? && !e.TxAccepted? && !e.UnregisterClient? && e.client == c
  }

  lemma {:induction false} StaysAbsent(s: Subscriptions, e: Event, s': Subscriptions, c: ClientId)
    requires Changes(s, e, s') && Absent(s, c) && !Names(e, c)
    ensures Absent(s', c)
  {
    forall op ensures (c, op) !in s'.ops {
      InOf(s.ops, c, op);
      if e.BlockConnected? {
        assert FollowsAt(s.ops, s.addrs, e.txs, s'.ops, c, op);
        NothingAfter(e.txs, op);
      }
    }
    forall name ensures (c, name) !in s'.addrs { InOf(s.addrs, c, name); }
    NothingOf(s'.ops, c);
    NothingOf(s'.addrs, c);
  }

  lemma {:induction false} NothingOf<K(!new)>(pairs: set<(ClientId, K)>, c: ClientId)
    requires forall k: K :: (c, k) !in pairs
    ensures Of(pairs, c) == {}
  {
    forall k: K ensures k !in Of(pairs, c) { InOf(pairs, c, k); }
  }

  /** A client that left, or that never came, hears of nothing until it asks for something again. */
  lemma {:induction false} GoneUntilBack(events: seq<Event>, trace: seq<Subscriptions>, c: ClientId, i: nat, j: nat)
    requires |trace| == |events| + 1 && forall k :: 0 <= k < |events| ==> ChangesAt(events, trace, k)
    requires i <= j <= |events| && (Absent(trace[i], c) || (0 < i && events[i - 1] == UnregisterClient(c)))
    requires forall k :: i <= k < j ==> !Names(events[k], c)
    ensures Absent(trace[j], c)
    decreases j
  {
    if i < j {
      GoneUntilBack(events, trace, c, i, j - 1);
      assert ChangesAt(events, trace, j - 1);
      StaysAbsent(trace[j - 1], events[j - 1], trace[j], c);
    } else if 0 < i && events[i - 1] == UnregisterClient(c) {
      assert ChangesAt(events, trace, i - 1);
      NothingOf(trace[i].ops, c);
      NothingOf(trace[i].addrs, c);
    }
  }

  class Manager {
    const ops: Index<OutPoint>
    const addrs: Index<Addr>
    var clients: set<ClientId>
    var blockClients: set<ClientId>
    var txClients: set<ClientId>

    constructor ()
      ensures Valid() && fresh(ops) && fresh(addrs)
    {
      ops := new Index<OutPoint>();
      addrs := new Index<Addr>();
      clients, blockClients, txClients := {}, {}, {};
    }

    ghost predicate Valid()
      reads this, ops, addrs
    {
      ops.Valid() && addrs.Valid() && ops as object != addrs as object
    }

    /** The clients that watch an input are told; if the transaction is in a block, they stop watching. */
    method NotifyForTxIns(tx: Tx, confirmed: bool) returns (notified: set<ClientId>)
      requires ops.Valid()
      modifies ops
      ensures ops.Valid()
      ensures forall p :: p in ops.pairs <==> p in old(ops.pairs) && !(confirmed && Spends(tx, p.1))
      ensures forall c :: c in notified <==> exists i :: 0 <= i < |tx.ins| && (c, tx.ins[i]) in old(ops.pairs)
    {
      notified := {};
      for i := 0 to |tx.ins|
        invariant ops.Valid()
        invariant forall p :: p in ops.pairs <==> p in old(ops.pairs) && !(confirmed && p.1 in tx.ins[..i])
        invariant forall c :: c in notified <==> exists k :: 0 <= k < i && (c, tx.ins[k]) in old(ops.pairs)
      {
        var told := NotifyForInput(tx.ins[i], confirmed);
        notified := notified + told;
      }
      assert tx.ins[..|tx.ins|] == tx.ins;
    }

    method NotifyForInput(op: OutPoint, confirmed: bool) returns (told: set<ClientId>)
      requires ops.Valid()
      modifies ops
      ensures ops.Valid()
      ensures forall p :: p in ops.pairs <==> p in old(ops.pairs) && !(confirmed && p.1 == op)
      ensures forall c :: c in told <==> (c, op) in old(ops.pairs)
    {
      told := if op in ops.watched then ops.watched[op] else {};
      forall c ensures c in told <==>
        (c, op) in ops.pairs { assert BothAt(ops.watched, ops.requests, ops.pairs, c, op); }
      if !confirmed {
        return;
      }
      var left := told;
      while left != {}
        invariant ops.Valid() && left <= told
        invariant forall p :: p in ops.pairs <==> p in old(ops.pairs) && (p.1 == op ==> p.0 in left)
        decreases left
      {
        var c :| c in left;
        left := left - {c};
        ops.Remove(c, op);
      }
    }

    /** The clients that watch an address of an output are told, and watch the output from now on. */
    method NotifyForTxOuts(tx: Tx) returns (notified: set<ClientId>)
      requires Valid()
      modifies ops
      ensures Valid()
      ensures forall p :: p in ops.pairs <==> p in old(ops.pairs) || Pays(tx, Of(addrs.pairs, p.0), p.1)
      ensures forall c :: c in notified <==> exists op: OutPoint :: Pays(tx, Of(addrs.pairs, c), op)
    {
      notified := {};
      for i := 0 to |tx.outs|
        invariant Valid()
        invariant forall p :: p in ops.pairs <==>
          p in old(ops.pairs) || (p.1.index < i && Pays(tx, Of(addrs.pairs, p.0), p.1))
        invariant forall c :: c in notified <==> exists op: OutPoint :: op.index < i && Pays(tx, Of(addrs.pairs, c), op)
      {
        ghost var before := ops.pairs;
        var told := NotifyForOutput(OutPoint(tx.txid, i), tx.outs[i]);
        forall c ensures c in told <==> Pays(tx, Of(addrs.pairs, c), OutPoint(tx.txid, i)) {}
        forall c
          ensures c in notified + told <==>
            exists op: OutPoint :: op.index < i + 1 && Pays(tx, Of(addrs.pairs, c), op)
        {
          if op: OutPoint :| op.index < i + 1 && Pays(tx, Of(addrs.pairs, c), op) {
            assert op.index == i ==> op == OutPoint(tx.txid, i);
          }
        }
        notified := notified + told;
        forall p
          ensures p in ops.pairs <==>
            p in old(ops.pairs) || (p.1.index < i + 1 && Pays(tx, Of(addrs.pairs, p.0), p.1))
        {
          assert p in ops.pairs <==> p in before || (p.1 == OutPoint(tx.txid, i) && p.0 in told);
        }
      }
    }

    /** One output and the addresses it pays. */
    method NotifyForOutput(op: OutPoint, names: seq<Addr>) returns (told: set<ClientId>)
      requires Valid()
      modifies ops
      ensures Valid()
      ensures forall p :: p in ops.pairs <==> p in old(ops.pairs) || (p.1 == op && p.0 in told)
      ensures forall c :: c in told <==> exists j :: 0 <= j < |names| && names[j] in Of(addrs.pairs, c)
    {
      told := {};
      for j := 0 to |names|
        invariant Valid()
        invariant forall p :: p in ops.pairs <==> p in old(ops.pairs) || (p.1 == op && p.0 in told)
        invariant forall c :: c in told <==> exists k :: 0 <= k < j && names[k] in Of(addrs.pairs, c)
      {
        var cmap := if names[j] in addrs.watched then addrs.watched[names[j]] else {};
        forall c ensures c in cmap <==> names[j] in Of(addrs.pairs, c) {
          InOf(addrs.pairs, c, names[j]);
          assert BothAt(addrs.watched, addrs.requests, addrs.pairs, c, names[j]);
        }
        WatchForAll(cmap, op);
        told := told + cmap;
      }
    }

    method WatchForAll(cmap: set<ClientId>, op: OutPoint)
      requires Valid()
      modifies ops
      ensures Valid() && forall p :: p in ops.pairs <==> p in old(ops.pairs) || (p.1 == op && p.0 in cmap)
    {
      var left := cmap;
      while left != {}
        invariant Valid() && left <= cmap
        invariant forall p :: p in ops.pairs <==> p in old(ops.pairs) || (p.1 == op && p.0 in cmap - left)
        decreases left
      {
        var c :| c in left;
        left := left - {c};
        ops.Add(c, op);
        assert forall p: (ClientId, OutPoint) :: p == (c, op) <==> p.1 == op && p.0 == c;
      }
    }

    /** One transaction, in the mempool or confirmed in a block. */
    method NotifyForTx(tx: Tx, confirmed: bool) returns (told: set<ClientId>)
      requires Valid()
      modifies ops
      ensures Valid() && forall c :: c in told <==> Hears(old(ops.pairs), addrs.pairs, tx, c)
      ensures forall p :: p in ops.pairs <==>
        (p in old(ops.pairs) && !(confirmed && Spends(tx, p.1))) || Pays(tx, Of(addrs.pairs, p.0), p.1)
    {
      NobodyWatches();
      told := {};
      if ops.watched != map[] {
        told := NotifyForTxIns(tx, confirmed);
      }
      if addrs.watched != map[] {
        var paid := NotifyForTxOuts(tx);
        told := told + paid;
      }
    }

    /** An empty index means that there are no requests. */
    lemma {:induction false} NobodyWatches()
      requires Valid()
      ensures ops.watched == map[] <==> ops.pairs == {}
      ensures addrs.watched == map[] <==> addrs.pairs == {}
      ensures addrs.watched == map[] ==> forall tx, c, op :: !Pays(tx, Of(addrs.pairs, c), op)
    {
      WatchedIffAsked(ops);
      WatchedIffAsked(addrs);
    }

    /** The transactions of a block that joined the main chain, in order. */
    method BlockJoins(txs: seq<Tx>) returns (told: seq<set<ClientId>>)
      requires Valid()
      modifies ops
      ensures Valid() && Follows(old(ops.pairs), addrs.pairs, txs, ops.pairs)
      ensures |told| == |txs|
      ensures forall n :: 0 <= n < |txs| ==> ToldRightly(old(ops.pairs), addrs.pairs, txs, n, told[n])
      ensures DependencyOrdered(txs) ==> forall op :: SpentIn(txs, op) ==> op !in ops.watched
    {
      NobodyWatches();
      told := [];
      if ops.watched != map[] || addrs.watched != map[] {
        FollowsNone(ops.pairs, addrs.pairs);
        for n := 0 to |txs|
          invariant Valid() && Follows(old(ops.pairs), addrs.pairs, txs[..n], ops.pairs) && |told| == n
          invariant forall k :: 0 <= k < n ==> ToldRightly(old(ops.pairs), addrs.pairs, txs, k, told[k])
        {
          ghost var before := ops.pairs;
          var some := NotifyForTx(txs[n], true);
          ToldIs(old(ops.pairs), addrs.pairs, txs, n, before, some);
          told := told + [some];
          FollowsMore(old(ops.pairs), addrs.pairs, txs[..n], txs[n], before, ops.pairs);
          assert txs[..n + 1] == txs[..n] + [txs[n]];
        }
        assert txs[..|txs|] == txs;
      } else {
        NothingFollows(txs);
        told := seq(|txs|, i => {});
        forall n | 0 <= n < |txs| ensures ToldRightly(ops.pairs, addrs.pairs, txs, n, told[n]) {
          NothingFollows(txs[..n]);
          ToldIs(ops.pairs, addrs.pairs, txs, n, ops.pairs, told[n]);
        }
      }
      if DependencyOrdered(txs) {
        forall op | SpentIn(txs, op) ensures op !in ops.watched {
          if op in ops.watched {
            var c :| c in ops.watched[op];
            assert BothAt(ops.watched, ops.requests, ops.pairs, c, op);
            SpentIsForgotten(old(ops.pairs), addrs.pairs, txs, ops.pairs, c, op);
            assert false;
          }
        }
      }
    }

    method RegisterSpentRequests(c: ClientId, outpoints: seq<OutPoint>)
      requires Valid()
      modifies ops
      ensures Valid() && forall p :: p in ops.pairs <==> p in old(ops.pairs) || (p.0 == c && p.1 in outpoints)
    {
      for i := 0 to |outpoints|
        invariant Valid() && forall p :: p in ops.pairs <==> p in old(ops.pairs) || (p.0 == c && p.1 in outpoints[..i])
      {
        ops.Add(c, outpoints[i]);
        assert forall p: (ClientId, OutPoint) :: p == (c, outpoints[i]) <==> p.0 == c && p.1 == outpoints[i];
      }
      assert outpoints[..|outpoints|] == outpoints;
    }

    method RegisterAddrRequests(c: ClientId, names: seq<Addr>)
      requires Valid()
      modifies addrs
      ensures Valid() && forall p :: p in addrs.pairs <==> p in old(addrs.pairs) || (p.0 == c && p.1 in names)
    {
      for i := 0 to |names|
        invariant Valid() && forall p :: p in addrs.pairs <==> p in old(addrs.pairs) || (p.0 == c && p.1 in names[..i])
      {
        addrs.Add(c, names[i]);
        assert forall p: (ClientId, Addr) :: p == (c, names[i]) <==> p.0 == c && p.1 == names[i];
      }
      assert names[..|names|] == names;
    }

    /** A client that leaves is removed everywhere, and nobody else is. */
    method Unregister(c: ClientId)
      requires Valid()
      modifies this, ops, addrs
      ensures Valid()
      ensures (forall p :: p in ops.pairs <==> p in old(ops.pairs) && p.0 != c)
      ensures (forall p :: p in addrs.pairs <==> p in old(addrs.pairs) && p.0 != c)
      ensures clients == old(clients) - {c} && blockClients == old(blockClients) - {c}
      ensures txClients == old(txClients) - {c}
    {
      blockClients, txClients := blockClients - {c}, txClients - {c};
      ops.RemoveClient(c);
      addrs.RemoveClient(c);
      clients := clients - {c};
    }

    ghost function View(): Subscriptions
      reads this, ops, addrs
    {
      Subscriptions(ops.pairs, addrs.pairs, clients, blockClients, txClients)
    }

    /** Any run of events keeps the index two-way, and every event of it does its work. */
    method NotificationHandler(events: seq<Event>)
      returns (told: seq<seq<set<ClientId>>>, ghost trace: seq<Subscriptions>)
      requires Valid()
      modifies this, ops, addrs
      ensures Valid()
      ensures |trace| == |events| + 1 && trace[0] == old(View()) && trace[|events|] == View() && |told| == |events|
      ensures forall i :: 0 <= i < |events| ==> ChangesAt(events, trace, i) && TellsAt(events, trace, told, i)
    {
      told, trace := [], [View()];
      for n := 0 to |events|
        invariant Valid() && |trace| == n + 1 && trace[0] == old(View()) && trace[n] == View() && |told| == n
        invariant forall i :: 0 <= i < n ==> ChangesAt(events, trace, i) && TellsAt(events, trace, told, i)
      {
        ghost var before, was := trace, told;
        var some := Handle(events[n]);
        told, trace := told + [some], trace + [View()];
        forall i | 0 <= i < n + 1 ensures ChangesAt(events, trace, i) && TellsAt(events, trace, told, i) {
          assert i < n ==> ChangesAt(events, before, i) && TellsAt(events, before, was, i);
        }
      }
    }

    /** One event: what it makes of the subscriptions, and who is told of each of its transactions. */
    method Handle(e: Event) returns (told: seq<set<ClientId>>)
      requires Valid()
      modifies this, ops, addrs
      ensures Valid() && Changes(old(View()), e, View()) && Tells(old(View()), e, told)
    {
      told := [];
      match e {
        case RegisterClient(c) => clients := clients + {c};
        case UnregisterClient(c) => Unregister(c);
        case RegisterBlocks(c) => blockClients := blockClients + {c};
        case UnregisterBlocks(c) => blockClients := blockClients - {c};
        case RegisterNewTxs(c) => txClients := txClients + {c};
        case UnregisterNewTxs(c) => txClients := txClients - {c};
        case RegisterSpent(c, outpoints) => RegisterSpentRequests(c, outpoints);
        case UnregisterSpent(c, op) => ops.Remove(c, op);
        case RegisterAddrs(c, names) => RegisterAddrRequests(c, names);
        case UnregisterAddr(c, name) => addrs.Remove(c, name);
        case BlockConnected(txs) => told := BlockJoins(txs);
        case TxAccepted(tx) =>
          var some := NotifyForTx(tx, false);
          told := [some];
      }
    }

    lemma {:induction false} NothingFollows(txs: seq<Tx>)
      requires Valid() && ops.pairs == {} && addrs.pairs == {}
      ensures Follows(ops.pairs, addrs.pairs, txs, ops.pairs)
    {
      forall c, op ensures FollowsAt(ops.pairs, addrs.pairs, txs, ops.pairs, c, op) {
        NothingAfter(txs, op);
        assert Of(ops.pairs, c) == {} && Of(addrs.pairs, c) == {};
      }
    }
  }

  lemma {:induction false} NothingAfter(txs: seq<Tx>, op: OutPoint)
    ensures !InAfter({}, {}, txs, op)
  {
    if txs != [] { NothingAfter(txs[..|txs| - 1], op); }
  }

  lemma {:induction false} WatchedIffAsked<K(!new)>(index: Index<K>)
    requires index.Valid()
    ensures index.watched == map[] <==> index.pairs == {}
  {
    if index.watched == map[] {
      forall p ensures p !in index.pairs {
        assert BothAt(index.watched, index.requests, index.pairs, p.0, p.1);
        assert p == (p.0, p.1);
      }
    } else {
      var k :| k in index.watched;
      var c :| c in index.watched[k];
      assert BothAt(index.watched, index.requests, index.pairs, c, k);
    }
  }
}
