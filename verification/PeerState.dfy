/**
 * The peer bookkeeping of the server (node/server.go): three maps of connected peers and a
 * counter for every address group, kept by the handlers of one event loop.
 */
module PeerState {
  import opened Chain

  datatype PeerId = PeerId(id: int)
  datatype Group = Group(key: int)
  datatype Host = Host(name: int)
  datatype Peer = Peer(id: PeerId, inbound: bool, persistent: bool, group: Group, host: Host)

  /** The checks on a new peer that are not about the peer maps, and the time. */
  datatype Checks = Checks(connected: bool, agentOk: bool, versionOk: bool, shuttingDown: bool, hostOk: bool, now: nat)

  datatype Event =
    | Add(peer: Peer, checks: Checks)
    | Done(peer: Peer, versionKnown: bool)
    | RemoveNode(target: Peer -> bool)
    | DisconnectNode(target: Peer -> bool)
    | OutboundGroup(group: Group)

  // ------------------------------------------------------------------ counting

  ghost function InGroup(m: map<PeerId, Peer>, k: Group): set<PeerId> {
    set id | id in m && m[id].group == k
  }

  lemma {:induction false} InGroupAdd(m: map<PeerId, Peer>, p: Peer, k: Group)
    requires p.id !in m
    ensures |InGroup(m[p.id := p], k)| == |InGroup(m, k)| + if p.group == k then 1 else 0
  {
    assert InGroup(m[p.id := p], k) == if p.group == k then InGroup(m, k) + {p.id} else InGroup(m, k);
  }

  lemma {:induction false} InGroupRemove(m: map<PeerId, Peer>, id: PeerId, k: Group)
    requires id in m
    ensures |InGroup(m, k)| == |InGroup(m - {id}, k)| + if m[id].group == k then 1 else 0
  {
    assert InGroup(m, k) == if m[id].group == k then InGroup(m - {id}, k) + {id} else InGroup(m - {id}, k);
  }

  function Counter(groups: map<Group, int>, k: Group): int {
    if k in groups then groups[k] else 0
  }

  /** Every group counter is the number of outbound and persistent peers of the group. */
  ghost predicate Counted(groups: map<Group, int>, outbound: map<PeerId, Peer>, persistent: map<PeerId, Peer>) {
    forall k :: CountedAt(groups, outbound, persistent, k)
  }

  ghost predicate CountedAt(
      groups: map<Group, int>, outbound: map<PeerId, Peer>, persistent: map<PeerId, Peer>, k: Group)
  {
    Counter(groups, k) == |InGroup(outbound, k)| + |InGroup(persistent, k)|
  }

  lemma {:induction false} CountedAdd(groups: map<Group, int>, a: map<PeerId, Peer>, b: map<PeerId, Peer>, p: Peer)
    requires Counted(groups, a, b) && p.id !in a && p.id !in b
    ensures Counted(groups[p.group := Counter(groups, p.group) + 1], a[p.id := p], b)
    ensures Counted(groups[p.group := Counter(groups, p.group) + 1], a, b[p.id := p])
  {
    var now := groups[p.group := Counter(groups, p.group) + 1];
    var a', b' := a[p.id := p], b[p.id := p];
    forall k ensures CountedAt(now, a', b, k) {
      assert CountedAt(groups, a, b, k);
      InGroupAdd(a, p, k);
    }
    forall k ensures CountedAt(now, a, b', k) {
      assert CountedAt(groups, a, b, k);
      InGroupAdd(b, p, k);
    }
  }

  /** The counters when a peer leaves: discounted if it was outbound or persistent. */
  function Discounted(
      groups: map<Group, int>, outb: map<PeerId, Peer>, pers: map<PeerId, Peer>, p: Peer): map<Group, int>
  {
    if p.id in outb || p.id in pers then groups[p.group := Counter(groups, p.group) - 1] else groups
  }

  lemma {:induction false} CountedSwap(groups: map<Group, int>, a: map<PeerId, Peer>, b: map<PeerId, Peer>)
    requires Counted(groups, a, b)
    ensures Counted(groups, b, a)
  {
    forall k ensures CountedAt(groups, b, a, k) { assert CountedAt(groups, a, b, k); }
  }

  lemma {:induction false} CountedDrop(groups: map<Group, int>, a: map<PeerId, Peer>, b: map<PeerId, Peer>, p: Peer)
    requires Counted(groups, a, b) && p.id in a && a[p.id] == p
    ensures Counted(groups[p.group := Counter(groups, p.group) - 1], a - {p.id}, b)
  {
    var now, a' := groups[p.group := Counter(groups, p.group) - 1], a - {p.id};
    forall k ensures CountedAt(now, a', b, k) {
      assert CountedAt(groups, a, b, k);
      InGroupRemove(a, p.id, k);
    }
  }

  lemma {:induction false} CountedRemove(groups: map<Group, int>, a: map<PeerId, Peer>, b: map<PeerId, Peer>, p: Peer)
    requires Counted(groups, a, b) && (p.id in a ==> a[p.id] == p && p.id !in b) && (p.id in b ==> b[p.id] == p)
    ensures Counted(Discounted(groups, a, b, p), a - {p.id}, b - {p.id})
  {
    Smaller(a, p.id);
    Smaller(b, p.id);
    forall k ensures CountedAt(Discounted(groups, a, b, p), a - {p.id}, b - {p.id}, k) {
      assert CountedAt(groups, a, b, k);
      if p.id in a { InGroupRemove(a, p.id, k); }
      if p.id in b { InGroupRemove(b, p.id, k); }
    }
  }

  /** Without the discount the counter of its group counts the peer that left. */
  lemma {:induction false} Uncounted(groups: map<Group, int>, a: map<PeerId, Peer>, b: map<PeerId, Peer>, p: Peer)
    requires Counted(groups, a, b) && (p.id in a ==> a[p.id] == p && p.id !in b) && (p.id in b ==> b[p.id] == p)
    ensures Counted(groups, a - {p.id}, b - {p.id}) <==> p.id !in a && p.id !in b
  {
    CountedRemove(groups, a, b, p);
    assert CountedAt(Discounted(groups, a, b, p), a - {p.id}, b - {p.id}, p.group);
    if p.id in a || p.id in b { assert !CountedAt(groups, a - {p.id}, b - {p.id}, p.group); }
  }

  lemma {:induction false} Smaller(m: map<PeerId, Peer>, id: PeerId)
    ensures |m - {id}| <= |m| && (id !in m ==> m - {id} == m)
  {
    if id in m { assert m == (m - {id})[id := m[id]]; }
  }

  // ------------------------------------------------------------------ the invariant

  ghost predicate KindAt(
      id: PeerId, p: Peer, inbound: bool, persistent: bool, peers: map<PeerId, Peer>, finished: set<PeerId>)
  {
    p.id == id && p.inbound == inbound && p.persistent == persistent && id in peers && peers[id] == p && id !in finished
  }

  /** A map of known, unfinished peers of one kind. */
  ghost predicate Kind(
      m: map<PeerId, Peer>, inbound: bool, persistent: bool, peers: map<PeerId, Peer>, finished: set<PeerId>)
  {
    forall id :: id in m ==> KindAt(id, m[id], inbound, persistent, peers, finished)
  }

  /** The peer maps and group counters, with the peers known so far and the ids of those done. */
  datatype Books = Books(
    max: nat,
    inb: map<PeerId, Peer>,
    outb: map<PeerId, Peer>,
    pers: map<PeerId, Peer>,
    groups: map<Group, int>,
    peers: map<PeerId, Peer>,
    finished: set<PeerId>)

  /** The maps hold known peers of their kinds, none of them finished; there are at most the maximum;
      and the counters count. */
  ghost predicate Consistent(b: Books) {
    && Kind(b.inb, true, false, b.peers, b.finished)
    && Kind(b.outb, false, false, b.peers, b.finished)
    && Kind(b.pers, false, true, b.peers, b.finished)
    && |b.inb| + |b.outb| + |b.pers| <= b.max && Counted(b.groups, b.outb, b.pers)
  }

  datatype Health = Sound | Unsound

  /** The verdict on the books, as one value. */
  ghost function HealthOf(b: Books): Health {
    if Consistent(b) then Sound else Unsound
  }

  /** No peer is in two maps, and no counter is negative. */
  lemma {:induction false} Disjoint(b: Books)
    requires Consistent(b)
    ensures b.inb.Keys !! b.outb.Keys && b.inb.Keys !! b.pers.Keys && b.outb.Keys !! b.pers.Keys
    ensures forall k :: 0 <= Counter(b.groups, k)
  {
    forall id
      ensures !(id in b.inb && id in b.outb) && !(id in b.inb && id in b.pers) && !(id in b.outb && id in b.pers)
    {
      assert id in b.inb ==> KindAt(id, b.inb[id], true, false, b.peers, b.finished);
      assert id in b.outb ==> KindAt(id, b.outb[id], false, false, b.peers, b.finished);
      assert id in b.pers ==> KindAt(id, b.pers[id], false, true, b.peers, b.finished);
    }
    forall k ensures 0 <= Counter(b.groups, k) {
      assert CountedAt(b.groups, b.outb, b.pers, k);
    }
  }

  lemma {:induction false} KindLearns(
      m: map<PeerId, Peer>, inbound: bool, persistent: bool, peers: map<PeerId, Peer>, finished: set<PeerId>, p: Peer)
    requires Kind(m, inbound, persistent, peers, finished) && p.id !in peers && p.id !in finished
    ensures Kind(m, inbound, persistent, peers[p.id := p], finished) && p.id !in m
    ensures p.inbound == inbound && p.persistent == persistent ==>
      Kind(m[p.id := p], inbound, persistent, peers[p.id := p], finished)
  {
    forall id | id in m ensures KindAt(id, m[id], inbound, persistent, peers[p.id := p], finished) {
      assert KindAt(id, m[id], inbound, persistent, peers, finished);
    }
  }

  lemma {:induction false} KindForgets(
      m: map<PeerId, Peer>, inbound: bool, persistent: bool, peers: map<PeerId, Peer>, finished: set<PeerId>,
      finished': set<PeerId>, id: PeerId)
    requires Kind(m, inbound, persistent, peers, finished)
    requires finished' == finished || finished' == finished + {id}
    ensures Kind(m - {id}, inbound, persistent, peers, finished')
    ensures id in m ==>
      id in peers && peers[id] == m[id] && m[id].id == id && m[id].inbound == inbound && m[id].persistent == persistent
    ensures id !in m ==> m - {id} == m
  {
    assert id in m ==> KindAt(id, m[id], inbound, persistent, peers, finished);
    forall x | x in m - {id} ensures KindAt(x, (m - {id})[x], inbound, persistent, peers, finished') {
      assert KindAt(x, m[x], inbound, persistent, peers, finished);
    }
  }

  /** Where a known peer can be: in the map of its kind only. */
  lemma {:induction false} Whereabouts(b: Books, p: Peer)
    requires HealthOf(b) == Sound && (p.id in b.peers ==> b.peers[p.id] == p)
    ensures p.id in b.inb ==> b.inb[p.id] == p && p.inbound && !p.persistent
    ensures p.id in b.outb ==> b.outb[p.id] == p && !p.inbound && !p.persistent
    ensures p.id in b.pers ==> b.pers[p.id] == p && !p.inbound && p.persistent
  {
    assert p.id in b.inb ==> KindAt(p.id, b.inb[p.id], true, false, b.peers, b.finished);
    assert p.id in b.outb ==> KindAt(p.id, b.outb[p.id], false, false, b.peers, b.finished);
    assert p.id in b.pers ==> KindAt(p.id, b.pers[p.id], false, true, b.peers, b.finished);
  }

  /** The books without a peer, and with its group discounted or not. */
  function Without(b: Books, p: Peer, discount: bool): Books {
    b.(inb := b.inb - {p.id}, outb := b.outb - {p.id}, pers := b.pers - {p.id},
       groups := if discount then Discounted(b.groups, b.outb, b.pers, p) else b.groups,
       finished := b.finished + {p.id})
  }

  /** A peer that is done leaves all maps: the books stay sound unless it was counted and is not
      discounted. */
  lemma {:induction false} Leaves(b: Books, p: Peer, discount: bool, b': Books)
    requires HealthOf(b) == Sound && (p.id in b.peers ==> b.peers[p.id] == p) && b' == Without(b, p, discount)
    ensures HealthOf(b') == if discount || (p.id !in b.outb && p.id !in b.pers) then Sound else Unsound
  {
    Whereabouts(b, p);
    KindForgets(b.inb, true, false, b.peers, b.finished, b'.finished, p.id);
    KindForgets(b.outb, false, false, b.peers, b.finished, b'.finished, p.id);
    KindForgets(b.pers, false, true, b.peers, b.finished, b'.finished, p.id);
    Smaller(b.inb, p.id);
    Smaller(b.outb, p.id);
    Smaller(b.pers, p.id);
    CountedRemove(b.groups, b.outb, b.pers, p);
    Uncounted(b.groups, b.outb, b.pers, p);
    assert discount || (p.id !in b.outb && p.id !in b.pers) ==> Consistent(b');
  }

  lemma {:induction false} InboundLeaves(b: Books, id: PeerId, b': Books)
    requires HealthOf(b) == Sound && id in b.inb && b' == b.(inb := b.inb - {id})
    ensures HealthOf(b') == Sound
  {
    KindForgets(b.inb, true, false, b.peers, b.finished, b.finished, id);
    Smaller(b.inb, id);
    assert Consistent(b');
  }

  lemma {:induction false} OutboundLeaves(b: Books, id: PeerId, group: Group, b': Books)
    requires HealthOf(b) == Sound && id in b.outb && group == b.outb[id].group
    requires b' == b.(outb := b.outb - {id}, groups := b.groups[group := Counter(b.groups, group) - 1])
    ensures HealthOf(b') == Sound
  {
    KindForgets(b.outb, false, false, b.peers, b.finished, b.finished, id);
    Smaller(b.outb, id);
    CountedDrop(b.groups, b.outb, b.pers, b.outb[id]);
    assert Consistent(b');
  }

  lemma {:induction false} PersistentLeaves(b: Books, id: PeerId, group: Group, b': Books)
    requires HealthOf(b) == Sound && id in b.pers && group == b.pers[id].group
    requires b' == b.(pers := b.pers - {id}, groups := b.groups[group := Counter(b.groups, group) - 1])
    ensures HealthOf(b') == Sound
  {
    KindForgets(b.pers, false, true, b.peers, b.finished, b.finished, id);
    Smaller(b.pers, id);
    CountedSwap(b.groups, b.outb, b.pers);
    CountedDrop(b.groups, b.pers, b.outb, b.pers[id]);
    CountedSwap(b'.groups, b'.pers, b'.outb);
    assert Consistent(b');
  }

  function Put(m: map<PeerId, Peer>, p: Peer, yes: bool): map<PeerId, Peer> {
    if yes then m[p.id := p] else m
  }

  /** The books with a new peer known, and in the map of its kind if it is added. */
  function With(b: Books, p: Peer, added: bool): Books {
    b.(inb := Put(b.inb, p, added && p.inbound),
       outb := Put(b.outb, p, added && !p.inbound && !p.persistent),
       pers := Put(b.pers, p, added && !p.inbound && p.persistent),
       groups := if added && !p.inbound then b.groups[p.group := Counter(b.groups, p.group) + 1] else b.groups,
       peers := b.peers[p.id := p])
  }

  lemma {:induction false} Joins(b: Books, p: Peer, added: bool, b': Books)
    requires HealthOf(b) == Sound && p.id !in b.peers && p.id !in b.finished && !(p.inbound && p.persistent)
    requires (added ==> |b.inb| + |b.outb| + |b.pers| < b.max) && b' == With(b, p, added)
    ensures HealthOf(b') == Sound
  {
    KindLearns(b.inb, true, false, b.peers, b.finished, p);
    KindLearns(b.outb, false, false, b.peers, b.finished, p);
    KindLearns(b.pers, false, true, b.peers, b.finished, p);
    CountedAdd(b.groups, b.outb, b.pers, p);
    assert Consistent(b');
  }

  // ------------------------------------------------------------------ peers that are meant

  /** Some peer of the map is meant. */
  ghost predicate Meant(m: map<PeerId, Peer>, target: Peer -> bool) {
    exists id :: id in m && target(m[id])
  }

  /** The peers of the map that are not meant. */
  ghost function Others(m: map<PeerId, Peer>, target: Peer -> bool): map<PeerId, Peer> {
    map id | id in m && !target(m[id]) :: m[id]
  }

  /** Some of the peers that are meant were taken out. */
  ghost predicate Pruned(was: map<PeerId, Peer>, now: map<PeerId, Peer>, target: Peer -> bool) {
    Others(was, target) == Others(now, target) && now.Keys <= was.Keys
  }

  lemma {:induction false} PrunedMore(was: map<PeerId, Peer>, now: map<PeerId, Peer>, target: Peer -> bool, id: PeerId)
    requires Pruned(was, now, target) && id in now && target(now[id])
    ensures Pruned(was, now - {id}, target)
  {
    assert Others(now - {id}, target) == Others(now, target);
  }

  lemma {:induction false} PrunedAll(was: map<PeerId, Peer>, now: map<PeerId, Peer>, target: Peer -> bool)
    requires Pruned(was, now, target) && !Meant(now, target)
    ensures now == Others(was, target)
  {
    assert Others(now, target) == now;
  }

  // ------------------------------------------------------------------ runs

  predicate Lives(e: Event) {
    e.Add? || e.Done?
  }

  /** Two events of one peer are its being added and then its being done, with its version known. */
  ghost predicate Ordered(a: Event, b: Event) {
    Lives(a) && Lives(b) && a.peer.id == b.peer.id ==> a.Add? && b.Done? && a.peer == b.peer && b.versionKnown
  }

  /** The life of a peer: it is added at most once, is done at most once, and not added after that.
      Inbound peers are not persistent. */
  ghost predicate Disciplined(events: seq<Event>) {
    && (forall i :: 0 <= i < |events| && events[i].Add? ==> !(events[i].peer.inbound && events[i].peer.persistent))
    && (forall i, j :: 0 <= i < j < |events| ==> Ordered(events[i], events[j]))
  }

  /** The peers to be added by a run of events, and the ids of those done. */
  ghost function AddedBy(events: seq<Event>): map<PeerId, Peer> {
    if events == [] then map[]
    else
      var before, e := AddedBy(events[..|events| - 1]), events[|events| - 1];
      if e.Add? then before[e.peer.id := e.peer] else before
  }

  ghost function DoneBy(events: seq<Event>): set<PeerId> {
    if events == [] then {}
    else
      var before, e := DoneBy(events[..|events| - 1]), events[|events| - 1];
      if e.Done? then before + {e.peer.id} else before
  }

  /** In a disciplined run the next event of a peer finds it as it should be. */
  lemma {:induction false} NextIsFit(events: seq<Event>, n: nat, k: nat)
    requires Disciplined(events) && n <= k < |events| && Lives(events[k])
    ensures events[k].peer.id !in DoneBy(events[..n])
    ensures events[k].Add? ==> events[k].peer.id !in AddedBy(events[..n])
    ensures events[k].peer.id in AddedBy(events[..n]) ==>
      AddedBy(events[..n])[events[k].peer.id] == events[k].peer && events[k].Done? && events[k].versionKnown
  {
    if 0 < n {
      assert events[..n][..n - 1] == events[..n - 1];
      NextIsFit(events, n - 1, k);
      assert Ordered(events[n - 1], events[k]);
    }
  }

  /** The checks pass, and the host is not banned any more. */
  predicate Passes(banned: map<Host, nat>, p: Peer, checks: Checks) {
    && checks.connected && checks.agentOk && checks.versionOk && !checks.shuttingDown && checks.hostOk
    && !(p.host in banned && checks.now < banned[p.host])
  }

  /** What an event does to the maps of peers. The counters follow from the maps. */
  ghost predicate Steps(b: Books, banned: map<Host, nat>, e: Event, b': Books) {
    match e
    case Add(p, checks) =>
      var added := Passes(banned, p, checks) && |b.inb| + |b.outb| + |b.pers| < b.max;
      && b'.inb == Put(b.inb, p, added && p.inbound)
      && b'.outb == Put(b.outb, p, added && !p.inbound && !p.persistent)
      && b'.pers == Put(b.pers, p, added && p.persistent)
    case Done(p, _) =>
      b'.inb == b.inb - {p.id} && b'.outb == b.outb - {p.id} && b'.pers == b.pers - {p.id}
    case RemoveNode(target) => b'.inb == b.inb && b'.outb == b.outb && OneLess(b.pers, target, b'.pers)
    case DisconnectNode(target) =>
      && b'.pers == b.pers && OneLess(b.inb, target, b'.inb)
      && b'.outb == if Meant(b.inb, target) then b.outb else Others(b.outb, target)
    case OutboundGroup(_) => b' == b
  }

  /** One of the peers that are meant was taken out, if there is one. */
  ghost predicate OneLess(was: map<PeerId, Peer>, target: Peer -> bool, now: map<PeerId, Peer>) {
    if !Meant(was, target) then now == was else exists id :: id in was && target(was[id]) && now == was - {id}
  }

  /** A ban is lifted when a peer passes the checks after it ran out, and stays otherwise. */
  function BansAfter(banned: map<Host, nat>, e: Event): map<Host, nat> {
    if e.Add? && Passes(banned, e.peer, e.checks) then banned - {e.peer.host} else banned
  }

  /** The maps and bans before event i of a run and after it. */
  ghost predicate TraceAt(events: seq<Event>, trace: seq<(Books, map<Host, nat>)>, i: nat)
    requires i < |events| && i + 1 < |trace|
  {
    && Consistent(trace[i + 1].0) && Steps(trace[i].0, trace[i].1, events[i], trace[i + 1].0)
    && trace[i + 1].1 == BansAfter(trace[i].1, events[i])
  }

  /** The same for every event so far. */
  ghost predicate Traced(events: seq<Event>, trace: seq<(Books, map<Host, nat>)>) {
    0 < |trace| <= |events| + 1 && forall i :: 0 <= i < |trace| - 1 ==> TraceAt(events, trace, i)
  }

  lemma {:induction false} TracedMore(events: seq<Event>, trace: seq<(Books, map<Host, nat>)>, b: Books,
      banned: map<Host, nat>)
    requires Traced(events, trace) && |trace| <= |events| && Consistent(b)
    requires var n := |trace| - 1;
      Steps(trace[n].0, trace[n].1, events[n], b) && banned == BansAfter(trace[n].1, events[n])
    ensures Traced(events, trace + [(b, banned)])
  {
    var now := trace + [(b, banned)];
    forall i | 0 <= i < |now| - 1 ensures TraceAt(events, now, i) {
      assert i < |trace| - 1 ==> TraceAt(events, trace, i);
    }
  }

  class State {
    const maxPeers: nat
    var inboundPeers: map<PeerId, Peer>
    var outboundPeers: map<PeerId, Peer>
    var persistentPeers: map<PeerId, Peer>
    var banned: map<Host, nat>
    var outboundGroups: map<Group, int>
    /** Peers that were ever to be added, and ids of those that are done. */
    ghost var peers: map<PeerId, Peer>
    ghost var finished: set<PeerId>

    constructor (maxPeers: nat)
      ensures Valid() && peers == map[] && finished == {} && this.maxPeers == maxPeers
    {
      this.maxPeers := maxPeers;
      inboundPeers, outboundPeers, persistentPeers, banned, outboundGroups := map[], map[], map[], map[], map[];
      peers, finished := map[], {};
    }

    ghost predicate Valid()
      reads this
    {
      HealthOf(View()) == Sound
    }

    ghost function View(): Books
      reads this
    {
      Books(maxPeers, inboundPeers, outboundPeers, persistentPeers, outboundGroups, peers, finished)
    }

    /** The checks on a new peer before there is room to be found for it. A ban that ran out is lifted. */
    method Admits(p: Peer, checks: Checks) returns (ok: bool)
      modifies this`banned
      ensures ok <==>
        && checks.connected && checks.agentOk && checks.versionOk && !checks.shuttingDown && checks.hostOk
        && !(p.host in old(banned) && checks.now < old(banned)[p.host])
      ensures banned == if ok then old(banned) - {p.host} else old(banned)
    {
      if !checks.connected || !checks.agentOk || !checks.versionOk || checks.shuttingDown || !checks.hostOk {
        return false;
      }
      if p.host in banned {
        if checks.now < banned[p.host] {
          return false;
        }
        banned := banned - {p.host};
      }
      return true;
    }

    /** A peer is new: it is added unless a check refuses it, it is banned or there is no room. */
    method HandleAddPeer(p: Peer, checks: Checks) returns (added: bool)
      requires Valid() && p.id !in peers && p.id !in finished && !(p.inbound && p.persistent)
      modifies this`inboundPeers, this`outboundPeers, this`persistentPeers, this`banned, this`outboundGroups, this`peers
      ensures Valid() && peers == old(peers)[p.id := p]
      ensures added <==>
        && checks.connected && checks.agentOk && checks.versionOk && !checks.shuttingDown && checks.hostOk
        && !(p.host in old(banned) && checks.now < old(banned)[p.host])
        && |old(inboundPeers)| + |old(outboundPeers)| + |old(persistentPeers)| < maxPeers
      ensures banned == if Passes(old(banned), p, checks) then old(banned) - {p.host} else old(banned)
      ensures inboundPeers == Put(old(inboundPeers), p, added && p.inbound)
      ensures outboundPeers == Put(old(outboundPeers), p, added && !p.inbound && !p.persistent)
      ensures persistentPeers == Put(old(persistentPeers), p, added && p.persistent)
    {
      added := Admits(p, checks);
      if added && |inboundPeers| + |outboundPeers| + |persistentPeers| >= maxPeers {
        added := false;
      }
      Record(p, added);
    }

    /** The peer becomes known, and is put in its map if it is added. */
    method Record(p: Peer, added: bool)
      requires Valid() && p.id !in peers && p.id !in finished && !(p.inbound && p.persistent)
      requires added ==> |inboundPeers| + |outboundPeers| + |persistentPeers| < maxPeers
      modifies this`inboundPeers, this`outboundPeers, this`persistentPeers, this`outboundGroups, this`peers
      ensures Valid() && View() == With(old(View()), p, added)
    {
      ghost var was := View();
      peers := peers[p.id := p];
      if added {
        Insert(p);
      }
      Joins(was, p, added, View());
    }

    /** Puts a peer in the map of its kind and counts its group. */
    method Insert(p: Peer)
      modifies this`inboundPeers, this`outboundPeers, this`persistentPeers, this`outboundGroups
      ensures inboundPeers == Put(old(inboundPeers), p, p.inbound)
      ensures outboundPeers == Put(old(outboundPeers), p, !p.inbound && !p.persistent)
      ensures persistentPeers == Put(old(persistentPeers), p, !p.inbound && p.persistent)
      ensures outboundGroups ==
        if p.inbound then old(outboundGroups)
        else old(outboundGroups)[p.group := Counter(old(outboundGroups), p.group) + 1]
    {
      if p.inbound {
        inboundPeers := inboundPeers[p.id := p];
      } else {
        outboundGroups := outboundGroups[p.group := Counter(outboundGroups, p.group) + 1];
        if p.persistent {
          persistentPeers := persistentPeers[p.id := p];
        } else {
          outboundPeers := outboundPeers[p.id := p];
        }
      }
    }

    /** A peer is done: it leaves its map if it is still there, and is discounted if its version is
        known. The counters stay exact unless an outbound or persistent peer leaves whose version is
        not; a peer that was added has sent its version. */
    method HandleDonePeer(p: Peer, versionKnown: bool)
      requires Valid() && p.id !in finished && (p.id in peers ==> peers[p.id] == p)
      modifies this`inboundPeers, this`outboundPeers, this`persistentPeers, this`outboundGroups, this`finished
      ensures Valid() <==> versionKnown || (p.id !in old(outboundPeers) && p.id !in old(persistentPeers))
      ensures finished == old(finished) + {p.id}
      ensures inboundPeers == old(inboundPeers) - {p.id} && outboundPeers == old(outboundPeers) - {p.id}
      ensures persistentPeers == old(persistentPeers) - {p.id}
    {
      ghost var was := View();
      Whereabouts(was, p);
      Retire(p, versionKnown);
      Leaves(was, p, versionKnown, View());
    }

    /** Erases a peer and notes that it is done. */
    method Retire(p: Peer, versionKnown: bool)
      requires p.id in inboundPeers ==> p.inbound && !p.persistent
      requires p.id in outboundPeers ==> !p.inbound && !p.persistent
      requires p.id in persistentPeers ==> !p.inbound && p.persistent
      modifies this`inboundPeers, this`outboundPeers, this`persistentPeers, this`outboundGroups, this`finished
      ensures View() == Without(old(View()), p, versionKnown)
    {
      Erase(p, versionKnown);
      finished := finished + {p.id};
    }

    /** Takes a peer out of the map of its kind, and discounts its group if it was there and its version
        is known. */
    method Erase(p: Peer, versionKnown: bool)
      requires p.id in inboundPeers ==> p.inbound && !p.persistent
      requires p.id in outboundPeers ==> !p.inbound && !p.persistent
      requires p.id in persistentPeers ==> !p.inbound && p.persistent
      modifies this`inboundPeers, this`outboundPeers, this`persistentPeers, this`outboundGroups
      ensures inboundPeers == old(inboundPeers) - {p.id} && outboundPeers == old(outboundPeers) - {p.id}
      ensures persistentPeers == old(persistentPeers) - {p.id}
      ensures outboundGroups ==
        if versionKnown then Discounted(old(outboundGroups), old(outboundPeers), old(persistentPeers), p)
        else old(outboundGroups)
    {
      var list := if p.persistent then persistentPeers else if p.inbound then inboundPeers else outboundPeers;
      if p.id in list && !p.inbound && versionKnown {
        outboundGroups := outboundGroups[p.group := Counter(outboundGroups, p.group) - 1];
      }
      if p.persistent {
        persistentPeers := persistentPeers - {p.id};
      } else if p.inbound {
        inboundPeers := inboundPeers - {p.id};
      } else {
        outboundPeers := outboundPeers - {p.id};
      }
    }

    /** The id of some peer of a list that is meant, if there is one: the order of a map is not
        fixed. */
    method FindPeer(list: map<PeerId, Peer>, target: Peer -> bool) returns (r: Option<PeerId>)
      ensures r.Some? ==> r.value in list && target(list[r.value])
      ensures r.Some? <==> Meant(list, target)
    {
      var left := list.Keys;
      while left != {}
        invariant left <= list.Keys && forall id :: id in list && id !in left ==> !target(list[id])
        decreases left
      {
        var id :| id in left;
        if target(list[id]) {
          return Some(id);
        }
        left := left - {id};
      }
      return None;
    }

    /** Takes one persistent peer that is meant out of its map, and discounts its group. */
    method RemoveNode(target: Peer -> bool) returns (gone: Option<PeerId>)
      requires Valid()
      modifies this`persistentPeers, this`outboundGroups
      ensures Valid()
      ensures gone.Some? <==> Meant(old(persistentPeers), target)
      ensures gone.Some? ==> gone.value in old(persistentPeers) && target(old(persistentPeers)[gone.value])
      ensures persistentPeers == if gone.Some? then old(persistentPeers) - {gone.value} else old(persistentPeers)
    {
      gone := FindPeer(persistentPeers, target);
      if gone.Some? {
        DropPersistent(gone.value);
      }
    }

    method DropPersistent(id: PeerId)
      requires Valid() && id in persistentPeers
      modifies this`persistentPeers, this`outboundGroups
      ensures Valid() && persistentPeers == old(persistentPeers) - {id}
    {
      ghost var was := View();
      var group := persistentPeers[id].group;
      outboundGroups := outboundGroups[group := Counter(outboundGroups, group) - 1];
      persistentPeers := persistentPeers - {id};
      PersistentLeaves(was, id, group, View());
    }

    /** Takes one inbound peer that is meant out of its map or, if there is none, all outbound ones. */
    method DisconnectNode(target: Peer -> bool) returns (found: bool)
      requires Valid()
      modifies this`inboundPeers, this`outboundPeers, this`outboundGroups
      ensures Valid()
      ensures found <==> Meant(old(inboundPeers), target) || Meant(old(outboundPeers), target)
      ensures Meant(old(inboundPeers), target) ==>
        && outboundPeers == old(outboundPeers)
        && exists id ::
             id in old(inboundPeers) && target(old(inboundPeers)[id]) && inboundPeers == old(inboundPeers) - {id}
      ensures !Meant(old(inboundPeers), target) ==>
        inboundPeers == old(inboundPeers) && outboundPeers == Others(old(outboundPeers), target)
    {
      var first := FindPeer(inboundPeers, target);
      if first.Some? {
        DropInbound(first.value);
        return true;
      }
      found := DisconnectOutbound(target);
    }

    method DropInbound(id: PeerId)
      requires Valid() && id in inboundPeers
      modifies this`inboundPeers
      ensures Valid() && inboundPeers == old(inboundPeers) - {id}
    {
      ghost var was := View();
      inboundPeers := inboundPeers - {id};
      InboundLeaves(was, id, View());
    }

    /** Takes all outbound peers that are meant out of their map. */
    method DisconnectOutbound(target: Peer -> bool) returns (found: bool)
      requires Valid()
      modifies this`outboundPeers, this`outboundGroups
      ensures Valid()
      ensures found <==> Meant(old(outboundPeers), target)
      ensures outboundPeers == Others(old(outboundPeers), target)
    {
      var next := FindPeer(outboundPeers, target);
      found := next.Some?;
      while next.Some?
        invariant Valid() && Pruned(old(outboundPeers), outboundPeers, target)
        invariant next.Some? <==> Meant(outboundPeers, target)
        invariant next.Some? ==> next.value in outboundPeers && target(outboundPeers[next.value])
        decreases outboundPeers.Keys
      {
        PrunedMore(old(outboundPeers), outboundPeers, target, next.value);
        DropOutbound(next.value);
        next := FindPeer(outboundPeers, target);
      }
      PrunedAll(old(outboundPeers), outboundPeers, target);
    }

    method DropOutbound(id: PeerId)
      requires Valid() && id in outboundPeers
      modifies this`outboundPeers, this`outboundGroups
      ensures Valid() && outboundPeers == old(outboundPeers) - {id}
    {
      ghost var was := View();
      var group := outboundPeers[id].group;
      outboundGroups := outboundGroups[group := Counter(outboundGroups, group) - 1];
      outboundPeers := outboundPeers - {id};
      OutboundLeaves(was, id, group, View());
    }

    /** The number of outbound and persistent peers of a group. */
    method GetOutboundGroup(k: Group) returns (count: int)
      requires Valid()
      ensures count == |InGroup(outboundPeers, k)| + |InGroup(persistentPeers, k)|
    {
      assert CountedAt(outboundGroups, outboundPeers, persistentPeers, k);
      if k in outboundGroups {
        return outboundGroups[k];
      }
      return 0;
    }

    /** Any run of events in which peers live as they do keeps the state consistent, and every event of
        it does its work: in particular no peer that is done is in a map. */
    method PeerHandler(events: seq<Event>) returns (ghost trace: seq<(Books, map<Host, nat>)>)
      requires Valid() && Disciplined(events) && peers == map[] && finished == {}
      modifies this
      ensures Valid() && peers == AddedBy(events) && finished == DoneBy(events)
      ensures |trace| == |events| + 1 && trace[0] == old((View(), banned)) && trace[|events|] == (View(), banned)
      ensures Traced(events, trace)
    {
      trace := [(View(), banned)];
      for n := 0 to |events|
        invariant Valid() && peers == AddedBy(events[..n]) && finished == DoneBy(events[..n])
        invariant |trace| == n + 1 && trace[0] == old((View(), banned)) && trace[n] == (View(), banned)
        invariant Traced(events, trace)
      {
        assert events[..n + 1][..n] == events[..n];
        if Lives(events[n]) { NextIsFit(events, n, n); }
        Handle(events[n]);
        TracedMore(events, trace, View(), banned);
        trace := trace + [(View(), banned)];
      }
      assert events[..|events|] == events;
    }

    method Handle(e: Event)
      requires Valid()
      requires Lives(e) ==> e.peer.id !in finished
      requires e.Add? ==> e.peer.id !in peers && !(e.peer.inbound && e.peer.persistent)
      requires e.Done? && e.peer.id in peers ==> peers[e.peer.id] == e.peer && e.versionKnown
      modifies this
      ensures Valid()
      ensures peers == if e.Add? then old(peers)[e.peer.id := e.peer] else old(peers)
      ensures finished == if e.Done? then old(finished) + {e.peer.id} else old(finished)
      ensures Steps(old(View()), old(banned), e, View()) && banned == BansAfter(old(banned), e)
    {
      if Lives(e) {
        HandleLifecycle(e);
      } else {
        HandleQuery(e);
      }
    }

    method HandleLifecycle(e: Event)
      requires Valid() && Lives(e) && e.peer.id !in finished
      requires e.Add? ==> e.peer.id !in peers && !(e.peer.inbound && e.peer.persistent)
      requires e.Done? && e.peer.id in peers ==> peers[e.peer.id] == e.peer && e.versionKnown
      modifies this
      ensures Valid()
      ensures e.Add? ==> peers == old(peers)[e.peer.id := e.peer] && finished == old(finished)
      ensures e.Done? ==> peers == old(peers) && finished == old(finished) + {e.peer.id}
      ensures Steps(old(View()), old(banned), e, View()) && banned == BansAfter(old(banned), e)
    {
      if e.Add? {
        var added := HandleAddPeer(e.peer, e.checks);
      } else {
        HandleDonePeer(e.peer, e.versionKnown);
      }
    }

    method HandleQuery(e: Event)
      requires Valid() && !Lives(e)
      modifies this`inboundPeers, this`outboundPeers, this`persistentPeers, this`outboundGroups
      ensures Valid() && Steps(old(View()), old(banned), e, View())
    {
      match e {
        case RemoveNode(target) => var gone := RemoveNode(target);
        case DisconnectNode(target) => var found := DisconnectNode(target);
        case OutboundGroup(group) => var count := GetOutboundGroup(group);
      }
    }
  }
}
