/**
 * How a client decides which peers serve invalid filters for a block (spv/blockmanager.go). The
 * check of a filter against the block either fails or counts the scripts it should not match;
 * maps are read in no fixed order.
 */
module FilterVote {
  import opened Chain

  datatype Addr = Addr(name: int)
  datatype FilterHash = FilterHash(id: int)
  /** A filter: the count of unexpected matches if it fits the block, and its hash if it has one. */
  datatype Filter = Filter(matches: Option<nat>, hash: Option<FilterHash>)
  datatype Result<T> = Ok(value: T) | Err

  type Filters = map<Addr, Filter>

  /** The strict majority of n peers. */
  function Majority(n: nat): nat { (n + 2) / 2 }

  // ------------------------------------------------------------------ the stages

  ghost function Failing(filters: Filters): set<Addr> {
    set a | a in filters && filters[a].matches.None?
  }

  /** m is the greatest count of unexpected matches. */
  ghost predicate IsMost(filters: Filters, m: nat) {
    && (m == 0 || exists a :: a in filters && filters[a].matches == Some(m))
    && forall a :: a in filters && filters[a].matches.Some? ==> filters[a].matches.value <= m
  }

  ghost function Suspects(filters: Filters, m: nat): set<Addr> {
    set a | a in filters && filters[a].matches == Some(m)
  }

  /** The peers among some that serve a filter of a hash. */
  ghost function Servers(filters: Filters, some: set<Addr>, h: FilterHash): set<Addr> {
    set a | a in filters && a in some && filters[a].hash == Some(h)
  }

  ghost function Votes(filters: Filters, h: FilterHash): nat { |Servers(filters, filters.Keys, h)| }

  ghost predicate AllHashed(filters: Filters) {
    forall a :: a in filters ==> filters[a].hash.Some?
  }

  /** b is the greatest number of peers that agree on a filter. */
  ghost predicate IsBest(filters: Filters, b: nat) {
    && (filters == map[] ==> b == 0)
    && (filters != map[] ==>
          exists a :: a in filters && filters[a].hash.Some? && Votes(filters, filters[a].hash.value) == b)
    && forall h :: Votes(filters, h) <= b
  }

  ghost function Minority(filters: Filters, b: nat): set<Addr>
    requires AllHashed(filters)
  {
    set a | a in filters && Votes(filters, filters[a].hash.value) < b
  }

  /** The filter of some peer does not fit the block. */
  ghost predicate SomeFails(filters: Filters) {
    exists a :: a in filters && filters[a].matches.None?
  }

  lemma {:induction false} FailingIs(filters: Filters)
    ensures SomeFails(filters) <==> Failing(filters) != {}
  {
    if SomeFails(filters) {
      var a :| a in filters && filters[a].matches.None?;
      assert a in Failing(filters);
    }
    if Failing(filters) != {} {
      var a :| a in Failing(filters);
    }
  }

  /** Some peer has more unexpected matches than a. */
  ghost predicate Outmatched(filters: Filters, a: Addr)
    requires a in filters
  {
    exists x :: x in filters && filters[x].matches.Some? && filters[a].matches.Some? &&
      filters[a].matches.value < filters[x].matches.value
  }

  /** Some filter has more votes than that of a. */
  ghost predicate Outvoted(filters: Filters, a: Addr)
    requires a in filters
  {
    filters[a].hash.Some? && exists h :: Votes(filters, filters[a].hash.value) < Votes(filters, h)
  }

  /** Whether it comes to a vote: every filter fits the block, and banning those with the most
      unexpected matches would leave too few. */
  ghost predicate ByVote(filters: Filters, threshold: nat, m: nat) {
    Failing(filters) == {} && !(Suspects(filters, m) != {} && |filters| - |Suspects(filters, m)| >= threshold)
  }

  /** Too few peers have fewer unexpected matches than some other. */
  ghost predicate Undecided(filters: Filters, threshold: nat) {
    filters == map[] || |set a | a in filters && Outmatched(filters, a)| < threshold
  }

  /** A peer has the most unexpected matches exactly if none has more. */
  lemma {:induction false} OutmatchedIs(filters: Filters, m: nat, a: Addr)
    requires IsMost(filters, m) && a in filters && filters[a].matches.Some?
    ensures Outmatched(filters, a) <==> filters[a].matches != Some(m)
  {
    if filters[a].matches.value < m {
      var x :| x in filters && filters[x].matches == Some(m);
      assert filters[a].matches.value < filters[x].matches.value;
    }
  }

  lemma {:induction false} SuspectsAre(filters: Filters, m: nat)
    requires IsMost(filters, m) && Failing(filters) == {}
    ensures Suspects(filters, m) == set a | a in filters && !Outmatched(filters, a)
    ensures filters != map[] ==> Suspects(filters, m) != {}
  {
    forall a | a in filters
      ensures filters[a].matches.Some? && (Outmatched(filters, a) <==> filters[a].matches != Some(m))
    {
      assert a !in Failing(filters);
      OutmatchedIs(filters, m, a);
    }
    if filters != map[] {
      var a :| a in filters;
      if m == 0 {
        assert a in Suspects(filters, m);
      } else {
        var x :| x in filters && filters[x].matches == Some(m);
        assert x in Suspects(filters, m);
      }
    }
  }

  /** If every filter fits, it comes to a vote exactly if the matches leave it undecided. */
  lemma {:induction false} ByVoteIs(filters: Filters, threshold: nat, m: nat)
    requires IsMost(filters, m) && Failing(filters) == {}
    ensures ByVote(filters, threshold, m) <==> Undecided(filters, threshold)
  {
    SuspectsAre(filters, m);
    var bans, rest := Suspects(filters, m), set a | a in filters && Outmatched(filters, a);
    assert filters.Keys == bans + rest && bans !! rest;
  }

  /** What is decided from the filters, given the greatest counts m and b. */
  ghost function Decision(filters: Filters, threshold: nat, m: nat, b: nat): Result<set<Addr>> {
    if Failing(filters) != {} then Ok(Failing(filters))
    else if !ByVote(filters, threshold, m) then Ok(Suspects(filters, m))
    else if !AllHashed(filters) || b < threshold then Err
    else Ok(Minority(filters, b))
  }

  // ------------------------------------------------------------------ what the decision guarantees

  /** Under a strict majority two filters cannot both have enough votes. */
  lemma {:induction false} OneWinner(filters: Filters, threshold: nat, g: FilterHash, h: FilterHash)
    requires |filters| < 2 * threshold && threshold <= Votes(filters, g) && threshold <= Votes(filters, h)
    ensures g == h
  {
    if g != h {
      var a, b := Servers(filters, filters.Keys, g), Servers(filters, filters.Keys, h);
      assert |a + b| == |a| + |b| by { assert a !! b; }
      SubsetIsFewer(a + b, filters.Keys);
      assert false;
    }
  }

  /** If every filter fits the block, a decision under a strict majority leaves at least that many
      peers unbanned; and if it was made by vote, all peers it leaves serve the same filter. */
  lemma {:induction false} MajorityRemains(filters: Filters, threshold: nat, m: nat, b: nat)
    requires Failing(filters) == {} && |filters| < 2 * threshold && Decision(filters, threshold, m, b).Ok?
    requires ByVote(filters, threshold, m) ==> IsBest(filters, b)
    ensures var bans := Decision(filters, threshold, m, b).value;
      bans <= filters.Keys && threshold <= |filters.Keys - bans|
    ensures var bans := Decision(filters, threshold, m, b).value;
      ByVote(filters, threshold, m) ==>
        && AllHashed(filters)
        && exists h :: filters.Keys - bans == Servers(filters, filters.Keys, h) && Votes(filters, h) == b
  {
    var bans := Decision(filters, threshold, m, b).value;
    if !ByVote(filters, threshold, m) {
      assert filters.Keys == (filters.Keys - bans) + bans;
    } else {
      var a :| a in filters && filters[a].hash.Some? && Votes(filters, filters[a].hash.value) == b;
      var h := filters[a].hash.value;
      forall x | x in filters ensures x !in bans <==> filters[x].hash == Some(h) {
        var g := filters[x].hash.value;
        if x !in bans { OneWinner(filters, threshold, g, h); }
      }
      assert filters.Keys - bans == Servers(filters, filters.Keys, h);
    }
  }

  /** The threshold that callers use is the least strict majority. */
  lemma {:induction false} MajorityIsStrict(n: nat, k: nat)
    ensures n < 2 * k <==> Majority(n) <= k
  {
  }

  // ------------------------------------------------------------------ the procedure

  method VerifyAll(filters: Filters) returns (bad: set<Addr>, opReturns: map<Addr, nat>)
    ensures bad == Failing(filters)
    ensures forall a :: a in opReturns <==> a in filters && filters[a].matches.Some?
    ensures forall a :: a in opReturns ==> opReturns[a] == filters[a].matches.value
  {
    bad, opReturns := {}, map[];
    var left := filters.Keys;
    while left != {}
      invariant left <= filters.Keys
      invariant bad == set a | a in filters && a !in left && filters[a].matches.None?
      invariant forall a :: a in opReturns <==> a in filters && a !in left && filters[a].matches.Some?
      invariant forall a :: a in opReturns ==> opReturns[a] == filters[a].matches.value
      decreases left
    {
      var a :| a in left;
      left := left - {a};
      if filters[a].matches.None? {
        bad := bad + {a};
      } else {
        opReturns := opReturns[a := filters[a].matches.value];
      }
    }
  }

  method FindSuspects(filters: Filters, opReturns: map<Addr, nat>) returns (most: nat, bans: set<Addr>)
    requires forall a :: a in opReturns <==> a in filters && filters[a].matches.Some?
    requires forall a :: a in opReturns ==> opReturns[a] == filters[a].matches.value
    ensures IsMost(filters, most) && bans == Suspects(filters, most)
  {
    most := 0;
    var left := opReturns.Keys;
    while left != {}
      invariant left <= opReturns.Keys
      invariant forall a :: a in opReturns && a !in left ==> opReturns[a] <= most
      invariant most == 0 || exists a :: a in filters && filters[a].matches == Some(most)
      decreases left
    {
      var a :| a in left;
      left := left - {a};
      if opReturns[a] > most {
        most := opReturns[a];
      }
    }
    bans := set a | a in opReturns && opReturns[a] == most;
  }

  function Counter(count: map<FilterHash, nat>, h: FilterHash): nat {
    if h in count then count[h] else 0
  }

  /** count and best are right for the peers read so far. */
  ghost predicate Tallied(filters: Filters, done: set<Addr>, count: map<FilterHash, nat>, best: nat) {
    && (forall h :: TalliedAt(filters, done, count, best, h))
    && (if done == {} then best == 0 else exists a :: a in done && Reaches(filters, a, count, best))
  }

  ghost predicate TalliedAt(filters: Filters, done: set<Addr>, count: map<FilterHash, nat>, best: nat, h: FilterHash) {
    Counter(count, h) == |Servers(filters, done, h)| && Counter(count, h) <= best
  }

  /** The filter of the peer has the greatest count. */
  predicate Reaches(filters: Filters, a: Addr, count: map<FilterHash, nat>, best: nat) {
    a in filters && filters[a].hash.Some? && Counter(count, filters[a].hash.value) == best
  }

  lemma {:induction false} ServersMore(filters: Filters, done: set<Addr>, a: Addr, h: FilterHash, g: FilterHash)
    requires a in filters && a !in done && filters[a].hash == Some(h)
    ensures |Servers(filters, done + {a}, g)| == |Servers(filters, done, g)| + if g == h then 1 else 0
  {
    var was, now := Servers(filters, done, g), Servers(filters, done + {a}, g);
    assert now == if g == h then was + {a} else was;
  }

  lemma {:induction false} TallyMore(
      filters: Filters, done: set<Addr>, count: map<FilterHash, nat>, best: nat, a: Addr, h: FilterHash)
    requires Tallied(filters, done, count, best) && a in filters && a !in done && filters[a].hash == Some(h)
    ensures var n := Counter(count, h) + 1;
      Tallied(filters, done + {a}, count[h := n], if n > best then n else best)
  {
    var n := Counter(count, h) + 1;
    var done', now, best' := done + {a}, count[h := n], if n > best then n else best;
    forall g ensures TalliedAt(filters, done', now, best', g) {
      assert TalliedAt(filters, done, count, best, g);
      ServersMore(filters, done, a, h, g);
    }
    assert a in done' && done' != {};
    if n <= best {
      var x :| x in done && Reaches(filters, x, count, best);
      assert x in done' && Reaches(filters, x, now, best');
    } else {
      assert Reaches(filters, a, now, best');
    }
  }

  /** Counts the filters by hash; fails if one has none. */
  method CountVotes(filters: Filters) returns (ok: bool, count: map<FilterHash, nat>, best: nat)
    ensures ok <==> AllHashed(filters)
    ensures ok ==> Tallied(filters, filters.Keys, count, best)
  {
    count, best := map[], 0;
    var left := filters.Keys;
    while left != {}
      invariant left <= filters.Keys && Tallied(filters, filters.Keys - left, count, best)
      invariant forall a :: a in filters && a !in left ==> filters[a].hash.Some?
      decreases left
    {
      var a :| a in left;
      if filters[a].hash.None? {
        return false, count, best;
      }
      var h := filters[a].hash.value;
      TallyMore(filters, filters.Keys - left, count, best, a, h);
      assert (filters.Keys - left) + {a} == filters.Keys - (left - {a});
      left := left - {a};
      count := count[h := Counter(count, h) + 1];
      if count[h] > best {
        best := count[h];
      }
    }
    assert filters.Keys - left == filters.Keys;
    ok := true;
  }

  /** The peers to ban for one block. */
  method ResolveFilterMismatch(regular: bool, filters: Filters, threshold: nat)
    returns (r: Result<set<Addr>>, ghost m: nat, ghost b: nat)
    ensures !regular ==> r == Err
    ensures regular ==> IsMost(filters, m) && r == Decision(filters, threshold, m, b)
    ensures regular && ByVote(filters, threshold, m) && AllHashed(filters) ==> IsBest(filters, b)
    ensures regular && SomeFails(filters) ==>
      r.Ok? && forall a :: a in r.value <==> a in filters && filters[a].matches.None?
    ensures regular && !SomeFails(filters) && !Undecided(filters, threshold) ==>
      r.Ok? && forall a :: a in r.value <==> a in filters && !Outmatched(filters, a)
    ensures regular && !SomeFails(filters) && Undecided(filters, threshold) ==>
      && (r.Ok? <==> AllHashed(filters) && exists h :: threshold <= Votes(filters, h))
      && (r.Ok? ==> forall a :: a in r.value <==> a in filters && Outvoted(filters, a))
  {
    m, b := 0, 0;
    if !regular {
      return Err, m, b;
    }
    var bad, opReturns := VerifyAll(filters);
    assert SomeFails(filters) <==> bad != {} by { FailingIs(filters); }
    var most, bans := FindSuspects(filters, opReturns);
    m := most;
    if bad == {} {
      SuspectsAre(filters, m);
      ByVoteIs(filters, threshold, m);
    }
    if bad != {} {
      return Ok(bad), m, b;
    }
    var remaining := |filters| - |bans|;
    if bans != {} && remaining >= threshold {
      return Ok(bans), m, b;
    }
    var ok, count, best := CountVotes(filters);
    b := best;
    if !ok {
      return Err, m, b;
    }
    TalliedIsBest(filters, count, best);
    if best < threshold {
      return Err, m, b;
    }
    var minority := set a | a in filters && count[filters[a].hash.value] < best;
    assert minority == Minority(filters, best);
    r := Ok(minority);
  }

  lemma {:induction false} TalliedIsBest(filters: Filters, count: map<FilterHash, nat>, best: nat)
    requires AllHashed(filters) && Tallied(filters, filters.Keys, count, best)
    ensures IsBest(filters, best) && exists h :: Votes(filters, h) == best
    ensures forall a :: a in filters ==>
      filters[a].hash.value in count && count[filters[a].hash.value] == Votes(filters, filters[a].hash.value)
  {
    forall h ensures Votes(filters, h) <= best { assert TalliedAt(filters, filters.Keys, count, best, h); }
    forall a | a in filters
      ensures filters[a].hash.value in count && count[filters[a].hash.value] == Votes(filters, filters[a].hash.value)
    {
      var h := filters[a].hash.value;
      assert a in Servers(filters, filters.Keys, h);
      assert TalliedAt(filters, filters.Keys, count, best, h);
    }
    if filters == map[] { assert Votes(filters, FilterHash(0)) == best; }
  }
}
