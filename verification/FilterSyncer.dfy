/** The imperative side of the checkpointed filter header sync. */
module FilterSyncer {
  import opened Chain
  import opened Stores
  import opened FilterHeaders
  import opened FilterSync

  /** Stop hashes and the queries they belong to correspond one to one. */
  ghost predicate StopsFor(blocks: seq<Header>, qs: seq<Query>, stops: map<Hash, nat>) {
    && (forall j :: 0 <= j < |qs| ==> StopAt(blocks, qs, stops, j))
    && (forall s :: s in stops ==> exists j :: 0 <= j < |qs| && StopIs(blocks, qs[j], s) && stops[s] == qs[j].interval)
  }

  predicate StopIs(blocks: seq<Header>, q: Query, s: Hash) {
    q.high < |blocks| && s == HashOf(blocks[q.high])
  }

  predicate StopAt(blocks: seq<Header>, qs: seq<Query>, stops: map<Hash, nat>, j: nat)
    requires j < |qs|
  {
    qs[j].high < |blocks| && HashOf(blocks[qs[j].high]) in stops && stops[HashOf(blocks[qs[j].high])] == qs[j].interval
  }

  lemma {:induction false} StopsForMore(
      plan: Plan, genesis: Header, blocks: seq<Header>, qs: seq<Query>, n: nat, stops: map<Hash, nat>)
    requires Connected(plan, qs) && genesis.prev == ZeroHash && IsChain(genesis, blocks)
    requires n < |qs| && qs[n].high < |blocks| && StopsFor(blocks, qs[..n], stops)
    ensures StopsFor(blocks, qs[..n + 1], stops[HashOf(blocks[qs[n].high]) := qs[n].interval])
  {
    var q, before, after := qs[n], qs[..n], qs[..n + 1];
    var stops' := stops[HashOf(blocks[q.high]) := q.interval];
    Distinct(genesis, blocks);
    assert QueryAt(plan, qs, n);
    forall j | 0 <= j < |after| ensures StopAt(blocks, after, stops', j) {
      if j < n {
        assert StopAt(blocks, before, stops, j);
        QueriesApart(plan, qs, j, n);
      }
    }
    forall s | s in stops'
      ensures exists j :: 0 <= j < |after| && StopIs(blocks, after[j], s) && stops'[s] == after[j].interval
    {
      if s == HashOf(blocks[q.high]) {
        assert StopIs(blocks, after[n], s);
      } else {
        var j :| 0 <= j < |before| && StopIs(blocks, before[j], s) && stops[s] == before[j].interval;
        assert after[j] == before[j];
      }
    }
  }

  /** Some message in the list is the answer to query q and was offered for it. */
  ghost predicate Answered(c: seq<FilterHeader>, blocks: seq<Header>, q: Query, responses: seq<(Hash, CFHeaders)>) {
    exists i :: 0 <= i < |responses| && Offered(c, blocks, q, responses[i])
  }

  ghost predicate AllAnswered(
      c: seq<FilterHeader>, blocks: seq<Header>, qs: seq<Query>, responses: seq<(Hash, CFHeaders)>)
  {
    forall j :: 0 <= j < |qs| ==> Answered(c, blocks, qs[j], responses)
  }

  ghost predicate Offered(c: seq<FilterHeader>, blocks: seq<Header>, q: Query, response: (Hash, CFHeaders)) {
    response.0 == response.1.stop && Answers(c, blocks, q, response.1)
  }

  /** got holds exactly the queries that some message in the list answers. */
  ghost predicate AnsweredSoFar(
      c: seq<FilterHeader>, blocks: seq<Header>, qs: seq<Query>, responses: seq<(Hash, CFHeaders)>, got: set<nat>)
  {
    forall j :: 0 <= j < |qs| ==> (j in got <==> Answered(c, blocks, qs[j], responses))
  }

  lemma {:induction false} AnsweredSoFarMore(
      c: seq<FilterHeader>, blocks: seq<Header>, qs: seq<Query>, before: seq<(Hash, CFHeaders)>,
      response: (Hash, CFHeaders), got: set<nat>)
    requires AnsweredSoFar(c, blocks, qs, before, got)
    ensures forall j :: 0 <= j < |qs| ==>
      (Answered(c, blocks, qs[j], before + [response]) <==> j in got || Offered(c, blocks, qs[j], response))
  {
    var after := before + [response];
    forall j | 0 <= j < |qs|
      ensures Answered(c, blocks, qs[j], after) <==> j in got || Offered(c, blocks, qs[j], response)
    {
      assert after[|before|] == response;
      assert forall i :: 0 <= i < |before| ==> after[i] == before[i];
    }
  }

  lemma {:induction false} AnsweredInTheEnd(
      c: seq<FilterHeader>, blocks: seq<Header>, qs: seq<Query>, responses: seq<(Hash, CFHeaders)>, n: nat,
      got: set<nat>)
    requires n <= |responses| && AnsweredSoFar(c, blocks, qs, responses[..n], got)
    ensures (forall j :: 0 <= j < |qs| ==> j in got) ==> AllAnswered(c, blocks, qs, responses)
    ensures n == |responses| && AllAnswered(c, blocks, qs, responses) ==> forall j :: 0 <= j < |qs| ==> j in got
  {
    forall j | 0 <= j < |qs| && j in got ensures Answered(c, blocks, qs[j], responses) {
      var i :| 0 <= i < n && Offered(c, blocks, qs[j], responses[..n][i]);
      assert responses[i] == responses[..n][i];
    }
    assert n == |responses| ==> responses[..n] == responses;
  }

  method VerifyCheckpoint(prev: FilterHeader, next: FilterHeader, r: CFHeaders) returns (ok: bool)
    ensures ok <==> r.prev == prev && Fold(r.prev, r.hashes) == next
  {
    if prev != r.prev {
      return false;
    }
    var last := r.prev;
    for i := 0 to |r.hashes|
      invariant last == Fold(r.prev, r.hashes[..i])
    {
      last := FilterNode(r.hashes[i], last);
      assert r.hashes[..i + 1][..i] == r.hashes[..i];
    }
    assert r.hashes[..|r.hashes|] == r.hashes;
    return last == next;
  }

  /** The headers a cfheaders message stands for. */
  method ComputeHeaders(prev: FilterHeader, hashes: seq<int>) returns (batch: seq<FilterHeader>, last: FilterHeader)
    ensures batch == Folds(prev, hashes) && last == Fold(prev, hashes)
  {
    batch, last := [], prev;
    for i := 0 to |hashes|
      invariant last == Fold(prev, hashes[..i]) && batch == Folds(prev, hashes[..i])
    {
      last := FilterNode(hashes[i], last);
      batch := batch + [last];
      assert hashes[..i + 1][..i] == hashes[..i];
    }
    assert hashes[..|hashes|] == hashes;
  }

  datatype Progress = Running | Astray

  class Syncer {
    const plan: Plan
    const stores: ChainStores
    var stopHashes: map<Hash, nat>
    var queryResponses: map<nat, CFHeaders>
    var initialHeader: FilterHeader
    var curHeader: FilterHeader
    var curHeight: nat
    var currentInterval: nat
    /** The height the run began at, its queries, how many are written and which answered. */
    ghost var first: nat
    ghost var qs: seq<Query>
    ghost var pos: nat
    ghost var got: set<nat>

    constructor (plan: Plan, stores: ChainStores)
      requires 0 < plan.interval && 0 < plan.perQuery
      ensures this.plan == plan && this.stores == stores
    {
      this.plan, this.stores := plan, stores;
      stopHashes, queryResponses, qs, got := map[], map[], [], {};
    }

    /** The current position is the one after pos queries, and the store is the prefix of the
        chain c up to it. */
    ghost predicate AtPosition(c: seq<FilterHeader>)
      reads this`pos, this`qs, this`first, this`curHeight, this`currentInterval, this`curHeader, this`initialHeader
      reads stores`filters
    {
      && pos <= |qs| && curHeight == HeightAt(first, qs, pos) && currentInterval == IntervalAt(plan, qs, pos)
      && first <= curHeight < |c| && (0 < pos ==> first < curHeight)
      && stores.filters == c[..curHeight + 1] && curHeader == c[curHeight] && initialHeader == c[first]
    }

    /** The checkpoints were sampled from c, and the stop hashes are those of the queries. */
    ghost predicate Setting(c: seq<FilterHeader>)
      reads this`qs, this`stopHashes, stores`file
    {
      Sampled(plan, c, stores.file) && StopsFor(stores.file, qs, stopHashes)
    }

    /** Whether the run is as it should be, as one value. */
    ghost function Phase(c: seq<FilterHeader>): Progress
      reads this, stores
    {
      if stores.Valid() && Setting(c) && AtPosition(c)
        && RunOk(plan, c, stores.file, first, qs, pos, queryResponses, got) then Running else Astray
    }

    ghost predicate Inv(c: seq<FilterHeader>)
      reads this, stores
    {
      Phase(c) == Running
    }

    /** Writes the headers of a message whose stop block is at height at on top of the filter
        store. None when the message is empty, does not continue the store, or does not fit
        below its stop block. */
    method WriteCFHeadersMsg(msg: CFHeaders, ghost at: nat) returns (r: Option<(FilterHeader, nat)>)
      requires stores.Valid() && at < |stores.file| && msg.stop == HashOf(stores.file[at])
      modifies stores`filters, stores`filterTip
      ensures r.Some? <==>
        msg.hashes != [] && msg.prev == old(stores.filters[|stores.filters| - 1]) && |msg.hashes| <= at + 1
      ensures r.None? ==> unchanged(stores)
      ensures r.Some? ==>
        && r == Some((Fold(msg.prev, msg.hashes), at))
        && stores.filters == old(stores.filters) + Folds(msg.prev, msg.hashes)
        && (at == |old(stores.filters)| - 1 + |msg.hashes| ==> stores.Valid())
    {
      var tip := stores.FilterChainTip();
      if tip.None? || tip.value.0 != msg.prev || msg.hashes == [] {
        return None;
      }
      var batch, last := ComputeHeaders(msg.prev, msg.hashes);
      r := WriteFolded(batch, last, msg.stop, at);
    }

    /** Writes filter headers that end with last at the block with the hash stop, if that is not below
        genesis. */
    method WriteFolded(batch: seq<FilterHeader>, last: FilterHeader, stop: Hash, ghost at: nat)
      returns (r: Option<(FilterHeader, nat)>)
      requires stores.Valid() && batch != [] && at < |stores.file| && stop == HashOf(stores.file[at])
      modifies stores`filters, stores`filterTip
      ensures r.Some? <==> |batch| <= at + 1
      ensures r.None? ==> unchanged(stores)
      ensures r.Some? ==>
        && r == Some((last, at)) && stores.filters == old(stores.filters) + batch
        && (at == |old(stores.filters)| - 1 + |batch| ==> stores.Valid())
    {
      stores.AncestorsAt(|batch| - 1, at);
      var fetched := stores.FetchHeaderAncestors(|batch| - 1, stop);
      if fetched.None? || |fetched.value.0| != |batch| {
        return None;
      }
      var (headers, startHeight) := fetched.value;
      stores.WriteFilterHeaders(batch, HashOf(headers[|batch| - 1]));
      return Some((last, startHeight + |batch| - 1));
    }

    /** Writing what lies between heights low and high of the chain extends the store from
        low to high; the out-of-order check never fires. */
    method WriteRange(msg: CFHeaders, ghost c: seq<FilterHeader>, ghost low: nat, ghost high: nat)
      returns (r: Option<(FilterHeader, nat)>)
      requires stores.Valid() && FilterChain(c) && low < high < |c| && high < |stores.file|
      requires stores.filters == c[..low + 1]
      requires msg == CFHeaders(HashOf(stores.file[high]), c[low], Hashes(c, low, high))
      modifies stores`filters, stores`filterTip
      ensures r == Some((c[high], high)) && stores.Valid() && stores.filters == c[..high + 1]
    {
      FoldHashes(c, low, high);
      FoldsHashes(c, low, high);
      assert c[..low + 1] + c[low + 1 .. high + 1] == c[..high + 1];
      r := WriteCFHeadersMsg(msg, high);
    }

    /** The message to write for the answer r at the write position: r itself, or for the first
        write of the run the part of r above the current height. None stands for a panic. */
    function Trim(r: CFHeaders, startHeight: nat): Option<CFHeaders>
      reads this`curHeader, this`initialHeader, this`curHeight
    {
      var offset := curHeight + 1 - startHeight;
      if curHeader != initialHeader then Some(r)
      else if offset < 0 || |r.hashes| < offset then None
      else Some(r.(prev := curHeader, hashes := r.hashes[offset..]))
    }

    /** At every write the trimmed message continues the store up to the end of its query: the
        offset, though taken from the answer that arrived last, belongs to it. */
    lemma TrimAligned(startHeight: nat, c: seq<FilterHeader>)
      requires Inv(c) && currentInterval in queryResponses
      requires pos == 0 && 0 < |qs| ==> startHeight == qs[0].low + 1
      ensures pos < |qs| && pos in got && curHeight < qs[pos].high < |c| && qs[pos].high < |stores.file|
      ensures Trim(queryResponses[currentInterval], startHeight) ==
        Some(CFHeaders(HashOf(stores.file[qs[pos].high]), c[curHeight], Hashes(c, curHeight, qs[pos].high)))
    {
      AlignedWrite(plan, c, stores.file, first, qs, pos, queryResponses, got);
      if 0 < pos { FilterDistinct(c, first, curHeight); }
    }

    /** Takes the answer at the write position from the queue and writes it. startHeight is the
        first height of the answer that has just arrived. False stands for a panic. */
    method WriteNext(startHeight: nat, ghost c: seq<FilterHeader>) returns (ok: bool)
      requires Inv(c) && currentInterval in queryResponses
      requires pos == 0 && 0 < |qs| ==> startHeight == qs[0].low + 1
      modifies this`queryResponses, this`curHeader, this`curHeight, this`currentInterval, this`pos, stores`filters
      modifies stores`filterTip
      ensures ok && Inv(c) && pos == old(pos) + 1 && queryResponses == old(queryResponses) - {old(currentInterval)}
    {
      TrimAligned(startHeight, c);
      var msg := Trim(queryResponses[currentInterval], startHeight);
      if msg.None? {
        return false;
      }
      var written := WriteRange(msg.value, c, curHeight, qs[pos].high);
      if written.None? {
        return false;
      }
      Advance(written.value.0, written.value.1, c);
      return true;
    }

    /** Moves on to the next query after the one at the write position was written. */
    method Advance(header: FilterHeader, height: nat, ghost c: seq<FilterHeader>)
      requires Setting(c) && RunOk(plan, c, stores.file, first, qs, pos, queryResponses, got) && pos < |qs|
      requires pos in got
      requires currentInterval == qs[pos].interval && first < height == qs[pos].high < |c| && header == c[height]
      requires stores.filters == c[..height + 1] && initialHeader == c[first]
      modifies this`queryResponses, this`curHeader, this`curHeight, this`currentInterval, this`pos
      ensures AtPosition(c) && RunOk(plan, c, stores.file, first, qs, pos, queryResponses, got)
      ensures pos == old(pos) + 1 && queryResponses == old(queryResponses) - {old(currentInterval)}
    {
      Advanced(plan, c, stores.file, first, qs, pos, queryResponses, got);
      queryResponses := queryResponses - {currentInterval};
      curHeader, curHeight := header, height;
      currentInterval := Quotient(curHeight, plan.interval);
      pos := pos + 1;
    }

    /** Handles one accepted answer: drops it when its range is written, else queues it and
        writes every answer that continues the store. */
    method Deliver(r: CFHeaders, ghost j: nat, ghost c: seq<FilterHeader>) returns (ok: bool)
      requires Inv(c) && currentInterval !in queryResponses
      requires j < |qs| && r.stop in stopHashes && stopHashes[r.stop] == qs[j].interval
      requires Answers(c, stores.file, qs[j], r)
      modifies this`queryResponses, this`curHeader, this`curHeight, this`currentInterval, this`pos, this`got
      modifies stores`filters, stores`filterTip
      ensures ok && Inv(c) && currentInterval !in queryResponses && got == old(got) + {j}
    {
      var k := stopHashes[r.stop];
      AnswerPosition(plan, c, stores.file, first, qs, pos, queryResponses, got, j);
      assert QueryAt(plan, qs, j);
      if 0 < j { QueriesApart(plan, qs, 0, j); }
      var startHeight := Mark(plan.interval, k) + 1;
      var lastHeight := startHeight + |r.hashes| - 1;
      if lastHeight <= curHeight {
        assert got == got + {j};
        return true;
      }
      Enqueued(plan, c, stores.file, first, qs, pos, queryResponses, got, j, r);
      got := got + {j};
      queryResponses := queryResponses[k := r];
      while currentInterval in queryResponses
        invariant Inv(c) && got == old(got) + {j}
        invariant pos == 0 && 0 < |qs| && currentInterval in queryResponses ==> startHeight == qs[0].low + 1
        decreases |queryResponses|
      {
        ok := WriteNext(startHeight, c);
        if !ok {
          return;
        }
      }
      return true;
    }

    /** Builds the queries from an interval on; false when a block header is missing. */
    method BuildQueries(from: nat, ghost c: seq<FilterHeader>) returns (ok: bool)
      requires stores.Valid() && Sampled(plan, c, stores.file) && Connected(plan, qs)
      requires from == IntervalAt(plan, qs, 0)
      modifies this`stopHashes
      ensures ok && StopsFor(stores.file, qs, stopHashes)
    {
      stopHashes := map[];
      var interval := from;
      ghost var n := 0;
      while interval < |plan.checkpoints|
        invariant n <= |qs| && interval == IntervalAt(plan, qs, n)
        invariant StopsFor(stores.file, qs[..n], stopHashes)
        decreases |plan.checkpoints| - interval
      {
        assert QueryAt(plan, qs, n) && SampledAt(plan, c, stores.file, Next(plan, interval));
        StopsForMore(plan, stores.genesis, stores.file, qs, n, stopHashes);
        var next :=
          if interval + plan.perQuery > |plan.checkpoints| then |plan.checkpoints| else interval + plan.perQuery;
        var stopHeader := stores.FetchHeaderByHeight(Mark(plan.interval, next));
        if stopHeader.None? {
          return false;
        }
        stopHashes := stopHashes[HashOf(stopHeader.value) := interval];
        n := n + 1;
        interval := next;
      }
      assert n < |qs| ==> QueryAt(plan, qs, n);
      assert qs[..n] == qs;
      return true;
    }

    /** Whether a message offered for the query with the given stop hash is taken: exactly when
        it is the answer to one of the queries, j, and offered for it. */
    method HandleResponse(asked: Hash, r: CFHeaders, ghost c: seq<FilterHeader>) returns (accepted: bool, ghost j: nat)
      requires stores.Valid() && Setting(c) && Connected(plan, qs)
      ensures accepted ==> j < |qs| && r.stop in stopHashes && stopHashes[r.stop] == qs[j].interval
      ensures forall i :: 0 <= i < |qs| ==> (Offered(c, stores.file, qs[i], (asked, r)) <==> accepted && i == j)
      ensures accepted <==> exists i :: 0 <= i < |qs| && Offered(c, stores.file, qs[i], (asked, r))
    {
      j := 0;
      if asked != r.stop {
        return false, j;
      }
      forall i | 0 <= i < |qs| && Offered(c, stores.file, qs[i], (asked, r))
        ensures r.stop in stopHashes && stopHashes[r.stop] == qs[i].interval
      {
        assert StopAt(stores.file, qs, stopHashes, i);
      }
      if r.stop !in stopHashes {
        return false, j;
      }
      var k, count := stopHashes[r.stop], |plan.checkpoints|;
      j :| 0 <= j < |qs| && StopIs(stores.file, qs[j], r.stop) && k == qs[j].interval;
      VerifiedAnswers(plan, c, stores.file, qs, j, r);
      forall i | 0 <= i < |qs| && qs[i].interval == k ensures i == j {
        if i < j { QueriesApart(plan, qs, i, j); }
        if j < i { QueriesApart(plan, qs, j, i); }
      }
      var prev := if k == 0 then plan.genesis else plan.checkpoints[k - 1];
      var nextIndex := if k + plan.perQuery - 1 >= count then count - 1 else k + plan.perQuery - 1;
      accepted := VerifyCheckpoint(prev, plan.checkpoints[nextIndex], r);
    }

    /** Fetches all headers up to the last checkpoint. responses are the messages received, in
        order of arrival, each with the stop hash of the query it is offered for; c is the
        chain the checkpoints were sampled from. ok would be false if the source panicked;
        done tells that the loop ran to its end. */
    method GetCheckpointedCFHeaders(responses: seq<(Hash, CFHeaders)>, ghost c: seq<FilterHeader>)
      returns (ok: bool, done: bool)
      requires stores.Valid() && Sampled(plan, c, stores.file) && stores.filters <= c
      modifies this, stores`filters, stores`filterTip
      ensures ok && stores.Valid() && old(stores.filters) <= stores.filters <= c
      ensures done <==>
        AllAnswered(c, stores.file, Queries(plan, LastMark(plan.interval, |old(stores.filters)| - 1)), responses)
      ensures done && |old(stores.filters)| <= Mark(plan.interval, |plan.checkpoints|) ==>
        |stores.filters| == Mark(plan.interval, |plan.checkpoints|) + 1
    {
      ok := Begin(c);
      if !ok {
        return ok, false;
      }
      if currentInterval >= |plan.checkpoints| {
        return true, true;
      }
      done := ReceiveAll(responses, c);
    }

    /** Reads the filter tip, finds the interval it is in, and builds the queries from there. */
    method Begin(ghost c: seq<FilterHeader>) returns (ok: bool)
      requires stores.Valid() && Sampled(plan, c, stores.file) && stores.filters <= c
      modifies this
      ensures ok && currentInterval == LastMark(plan.interval, |stores.filters| - 1)
      ensures qs == Queries(plan, currentInterval) && first == |stores.filters| - 1
      ensures currentInterval < |plan.checkpoints| ==> Inv(c) && got == {} && queryResponses == map[] && 0 < |qs|
      ensures currentInterval >= |plan.checkpoints| ==> Mark(plan.interval, |plan.checkpoints|) <= first && qs == []
    {
      var tip := stores.FilterChainTip();
      if tip.None? {
        return false;
      }
      curHeader, curHeight := tip.value.0, tip.value.1;
      initialHeader := curHeader;
      currentInterval := Quotient(curHeight, plan.interval);
      queryResponses := map[];
      first, qs, pos, got := curHeight, Queries(plan, currentInterval), 0, {};
      if currentInterval >= |plan.checkpoints| {
        MarkBelow(plan.interval, curHeight);
        if |plan.checkpoints| < currentInterval { MarkMono(plan.interval, |plan.checkpoints|, currentInterval); }
        return true;
      }
      ok := BeginQueries(c);
    }

    /** The queries from the interval of the filter tip on: nothing is answered yet. */
    method BeginQueries(ghost c: seq<FilterHeader>) returns (ok: bool)
      requires stores.Valid() && Sampled(plan, c, stores.file) && stores.filters <= c
      requires first == curHeight == |stores.filters| - 1 && curHeader == initialHeader == stores.filters[curHeight]
      requires currentInterval == LastMark(plan.interval, curHeight) < |plan.checkpoints|
      requires qs == Queries(plan, currentInterval) && pos == 0 && got == {} && queryResponses == map[]
      modifies this`stopHashes
      ensures ok && Inv(c) && 0 < |qs|
    {
      RunStarts(plan, c, stores.file, curHeight);
      ok := BuildQueries(currentInterval, c);
      assert AtPosition(c);
    }

    /** The loop that receives messages until the last checkpoint is reached. */
    method ReceiveAll(responses: seq<(Hash, CFHeaders)>, ghost c: seq<FilterHeader>) returns (done: bool)
      requires Inv(c) && got == {} && queryResponses == map[] && 0 < |qs|
      modifies this`queryResponses, this`curHeader, this`curHeight, this`currentInterval, this`pos, this`got
      modifies stores`filters, stores`filterTip
      ensures stores.Valid() && first <= curHeight < |c| && stores.filters == c[..curHeight + 1]
      ensures done <==> AllAnswered(c, stores.file, qs, responses)
      ensures done ==> curHeight == Mark(plan.interval, |plan.checkpoints|)
    {
      var i := 0;
      while i < |responses| && currentInterval < |plan.checkpoints|
        invariant 0 <= i <= |responses|
        invariant Inv(c) && currentInterval !in queryResponses
        invariant AnsweredSoFar(c, stores.file, qs, responses[..i], got)
      {
        ghost var before := responses[..i];
        Receive(responses[i], before, c);
        i := i + 1;
        assert responses[..i] == before + [responses[i - 1]];
      }
      Finished(responses, i, c);
      done := currentInterval >= |plan.checkpoints|;
    }

    lemma {:induction false} Finished(responses: seq<(Hash, CFHeaders)>, n: nat, c: seq<FilterHeader>)
      requires Inv(c) && currentInterval !in queryResponses && 0 < |qs| && n <= |responses|
      requires AnsweredSoFar(c, stores.file, qs, responses[..n], got)
      requires n == |responses| || currentInterval >= |plan.checkpoints|
      ensures currentInterval >= |plan.checkpoints| <==> AllAnswered(c, stores.file, qs, responses)
      ensures currentInterval >= |plan.checkpoints| ==> curHeight == Mark(plan.interval, |plan.checkpoints|)
    {
      FinishedWhenAllAnswered(plan, c, stores.file, first, qs, pos, queryResponses, got);
      AnsweredInTheEnd(c, stores.file, qs, responses, n, got);
    }

    /** One message: taken or dropped, and if taken delivered. */
    method Receive(response: (Hash, CFHeaders), ghost before: seq<(Hash, CFHeaders)>, ghost c: seq<FilterHeader>)
      requires Inv(c) && currentInterval !in queryResponses && AnsweredSoFar(c, stores.file, qs, before, got)
      modifies this`queryResponses, this`curHeader, this`curHeight, this`currentInterval, this`pos, this`got
      modifies stores`filters, stores`filterTip
      ensures Inv(c) && currentInterval !in queryResponses
      ensures AnsweredSoFar(c, stores.file, qs, before + [response], got)
    {
      AnsweredSoFarMore(c, stores.file, qs, before, response, got);
      var accepted; ghost var j;
      accepted, j := HandleResponse(response.0, response.1, c);
      if accepted {
        assert Offered(c, stores.file, qs[j], response);
        var ok := Deliver(response.1, j, c);
      }
    }
  }
}
