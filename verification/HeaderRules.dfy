/** What one headers message does to the SPV client's header chain, stated without loops:
    the message is a run of known headers followed by a run of new ones, and the new run
    either extends the tip, replaces a suffix of the stored chain, or is refused. */
module HeaderRules {
  import opened Chain

  datatype Checkpoint = Checkpoint(height: nat, hash: Hash)

  datatype Node = Node(height: nat, header: Header)

  /** A header as received, with the certificate that comes with it. */
  datatype MsgHeader = MsgHeader(header: Header, cert: int)

  /** A notification that a header left the chain and which header is the tip now. */
  datatype Disconnect = Disconnect(header: Header, height: nat, newTip: Header)

  /** The chain parameters. sane stands for the contextual and context-free header checks;
      it sees the answers of every ancestor lookup, by height, ending with the parent. */
  datatype Params = Params(
    genesis: Header,
    checkpoints: seq<Checkpoint>,
    work: nat -> nat,
    sane: (seq<Option<Header>>, Header, int) -> bool,
    maxMem: nat)

  /** Checkpoints come in ascending order of height, above genesis, and the in-memory
      list holds at least two nodes. */
  ghost predicate ValidParams(p: Params) {
    && p.genesis.prev == ZeroHash
    && 2 <= p.maxMem
    && (forall i :: 0 <= i < |p.checkpoints| ==> 0 < p.checkpoints[i].height)
    && Ascending(p.checkpoints)
  }

  ghost predicate Ascending(cps: seq<Checkpoint>) {
    forall i, j :: 0 <= i < j < |cps| ==> cps[i].height < cps[j].height
  }

  /** list is the in-memory header list; next the next checkpoint; log the disconnects sent. */
  datatype State = State(
    file: seq<Header>,
    filters: seq<FilterHeader>,
    list: seq<Node>,
    next: Option<Checkpoint>,
    log: seq<Disconnect>)

  datatype Exit =
    | Empty | Unconnected | Stale          // dropped before any header is looked at
    | Ignored | Orphan | PastCheckpoint    // refused at the first new header
    | InsaneReorg | LessWork               // branch refused
    | Insane(pushed: nat)                  // a header failed after pushed ones reached the list
    | BadCheckpoint                        // the chain contradicts the next checkpoint
    | NoPrevious | Failed                  // empty list, or a store lookup failed
    | Done

  // ---------- checkpoints ----------

  /** The last checkpoint strictly below height, or genesis. */
  function PreviousCheckpoint(genesis: Header, cps: seq<Checkpoint>, height: nat): (r: Checkpoint)
    ensures r == Checkpoint(0, HashOf(genesis)) || (r in cps && r.height < height)
    ensures Ascending(cps) ==> forall c :: c in cps && c.height < height ==> c.height <= r.height
  {
    if cps == [] then Checkpoint(0, HashOf(genesis))
    else if cps[|cps| - 1].height < height then
      assert Ascending(cps) ==> forall i :: 0 <= i < |cps| ==> cps[i].height <= cps[|cps| - 1].height;
      cps[|cps| - 1]
    else PreviousCheckpoint(genesis, cps[..|cps| - 1], height)
  }

  /** The first checkpoint strictly above height. */
  function NextCheckpoint(cps: seq<Checkpoint>, height: nat): (r: Option<Checkpoint>)
    ensures r.Some? ==> r.value in cps && height < r.value.height
    ensures Ascending(cps) ==> forall c :: c in cps && height < c.height ==> r.Some? && r.value.height <= c.height
  {
    if cps == [] then None
    else if height < cps[0].height then Some(cps[0])
    else NextCheckpoint(cps[1..], height)
  }

  // ---------- the in-memory list ----------

  function Bounded(list: seq<Node>, max: nat): seq<Node> {
    if |list| <= max then list else list[|list| - max..]
  }

  /** PushBack on the bounded list. */
  function Push(p: Params, list: seq<Node>, height: nat, h: Header): seq<Node> {
    Bounded(list + [Node(height, h)], p.maxMem)
  }

  /** The list is a non-empty suffix of the stored chain, with the right heights. */
  ghost predicate Agree(file: seq<Header>, list: seq<Node>) {
    && 0 < |list| <= |file|
    && forall i :: 0 <= i < |list| ==> list[i] == Node(|file| - |list| + i, file[|file| - |list| + i])
  }

  ghost predicate ChainOk(p: Params, s: State) {
    IsChain(p.genesis, s.file) && 1 <= |s.filters| <= |s.file|
  }

  // ---------- ancestor lookups ----------

  /** The header of the last node of the list with the given height. */
  function FindInList(list: seq<Node>, height: int): Option<Header> {
    if list == [] then None
    else if list[|list| - 1].height == height then Some(list[|list| - 1].header)
    else FindInList(list[..|list| - 1], height)
  }

  /** RelativeAncestorCtx: the list is consulted first, then the store by height. */
  function RelativeAncestor(list: seq<Node>, file: seq<Header>, height: int, distance: int): Option<Header> {
    var at := height - distance;
    if FindInList(list, at).Some? then FindInList(list, at)
    else if 0 <= at < |file| then Some(file[at]) else None
  }

  /** What header checks see: every ancestor lookup from genesis up, then the parent. */
  function AncestorView(list: seq<Node>, file: seq<Header>, height: nat, parent: Header): seq<Option<Header>> {
    seq(height, i => RelativeAncestor(list, file, height, height - i)) + [Some(parent)]
  }

  /** The list holds the top of chain c and the store the part of c below the list. */
  ghost predicate Covers(list: seq<Node>, file: seq<Header>, c: seq<Header>) {
    && 0 < |list| <= |c| && |c| - |list| <= |file|
    && (forall i :: 0 <= i < |list| ==> list[i] == Node(|c| - |list| + i, c[|c| - |list| + i]))
    && (forall h :: 0 <= h < |c| - |list| ==> file[h] == c[h])
  }

  // ---------- rolling back ----------

  /** One disconnect per header above height, tip first, each with its parent. */
  function Disconnects(file: seq<Header>, height: nat): (r: seq<Disconnect>)
    ensures |r| == if height < |file| then |file| - 1 - height else 0
  {
    if |file| <= height + 1 then []
    else [Disconnect(Last(file), |file| - 1, file[|file| - 2])] + Disconnects(file[..|file| - 1], height)
  }

  /** Since before, the log has told of the removal of every header of the file from position kept on,
      and of nothing else: tip first, each with its height and the header below it. */
  ghost predicate Reported(file: seq<Header>, kept: nat, before: seq<Disconnect>, log: seq<Disconnect>) {
    && 0 < kept <= |file| && before <= log && |log| - |before| == |file| - kept
    && forall i :: 0 <= i < |file| - kept ==> ReportedAt(file, log, |before|, i)
  }

  ghost predicate ReportedAt(file: seq<Header>, log: seq<Disconnect>, from: nat, i: nat) {
    && i + 1 < |file| && from + i < |log|
    && log[from + i] == Disconnect(file[|file| - 1 - i], |file| - 1 - i, file[|file| - 2 - i])
  }

  /** How many headers are left when a store is rolled back to a height. */
  function KeptLength(length: nat, height: nat): nat {
    if height + 1 < length then height + 1 else length
  }

  function RollBack(s: State, height: nat): State {
    s.(file := if height + 1 < |s.file| then s.file[..height + 1] else s.file,
       filters := if height + 1 < |s.filters| then s.filters[..height + 1] else s.filters,
       log := s.log + Disconnects(s.file, height))
  }

  // ---------- messages ----------

  function Plain(hs: seq<MsgHeader>): (r: seq<Header>)
    ensures |r| == |hs|
  {
    if hs == [] then [] else [hs[0].header] + Plain(hs[1..])
  }

  predicate FollowsAt(msg: seq<MsgHeader>, i: nat)
    requires 0 < i < |msg|
  {
    msg[i].header.prev == HashOf(msg[i - 1].header)
  }

  /** Every header names its predecessor in the message as parent. */
  ghost predicate Connected(msg: seq<MsgHeader>) {
    forall i :: 0 < i < |msg| ==> FollowsAt(msg, i)
  }

  /** The first of the headers hs names the last header of c as parent. */
  predicate Attached(c: seq<Header>, hs: seq<MsgHeader>) {
    hs != [] && c != [] ==> hs[0].header.prev == HashOf(Last(c))
  }

  /** Length of the longest run of stored headers the message starts with. */
  ghost function Known(file: seq<Header>, msg: seq<MsgHeader>): (k: nat)
    ensures k <= |msg|
  {
    if msg == [] || msg[0].header !in file then 0 else 1 + Known(file, msg[1..])
  }

  function AllKnown(c: seq<Header>): seq<Option<Header>> {
    seq(|c|, i requires 0 <= i < |c| => Some(c[i]))
  }

  predicate SaneOn(p: Params, c: seq<Header>, h: MsgHeader) {
    p.sane(AllKnown(c), h.header, h.cert)
  }

  predicate AllSane(p: Params, c: seq<Header>, hs: seq<MsgHeader>)
    decreases |hs|
  {
    hs == [] || (SaneOn(p, c, hs[0]) && AllSane(p, c + [hs[0].header], hs[1..]))
  }

  predicate AtCheckpoint(next: Option<Checkpoint>, height: nat) {
    next.Some? && next.value.height == height
  }

  /** The new headers hs go on top of the tip one by one, until one fails or the next
      checkpoint is met. taken holds the headers of the message that are already in the
      list; they are stored only when the message completes. */
  function Extend(p: Params, s: State, taken: seq<Header>, hs: seq<MsgHeader>): (Exit, State)
    decreases |hs|
  {
    if hs == [] then (Done, s.(file := s.file + taken))
    else if !SaneOn(p, s.file + taken, hs[0]) then (Insane(|taken|), s)
    else
      var h, height := hs[0].header, |s.file| + |taken|;
      var list := Push(p, s.list, height, h);
      if !AtCheckpoint(s.next, height) then
        Extend(p, s.(list := list), taken + [h], hs[1..])
      else if HashOf(h) == s.next.value.hash then
        (Done, s.(file := s.file + (taken + [h]), list := list, next := NextCheckpoint(p.checkpoints, height)))
      else
        (BadCheckpoint, RollBack(s.(list := list), PreviousCheckpoint(p.genesis, p.checkpoints, height).height))
  }

  /** blockchain.ShouldChangeTip: strictly more work, by at least a quarter of the lighter tip. */
  predicate ShouldChangeTip(currentWork: nat, proposedWork: nat, currentTip: nat, proposedTip: nat) {
    && currentWork < proposedWork
    && proposedWork - currentWork >= (if proposedTip < currentTip then proposedTip else currentTip) / 4
  }

  /** Whether the branch hs off the stored header at height back is accepted: not below a
      checkpoint already passed, sane, and heavy enough. */
  function Judge(p: Params, s: State, hs: seq<MsgHeader>, back: nat): Exit
    requires 0 < |hs| && back + 1 < |s.file|
  {
    if back < PreviousCheckpoint(p.genesis, p.checkpoints, |s.file| - 1).height then PastCheckpoint
    else if !AllSane(p, s.file[..back + 1], hs) then InsaneReorg
    else JudgeWork(p, s.file, hs, back)
  }

  /** The verdict on a sane branch: its work against that of the stored headers it replaces. */
  function JudgeWork(p: Params, file: seq<Header>, hs: seq<MsgHeader>, back: nat): Exit
    requires 0 < |hs| && back < |file|
  {
    if ShouldChangeTip(WorkSum(p.work, file[back + 1..]), WorkSum(p.work, Plain(hs)),
                       p.work(Last(file).bits), p.work(hs[|hs| - 1].header.bits)) then Done
    else LessWork
  }

  /** The new headers hs branch off the stored header at height back, below the tip. */
  function Reorg(p: Params, s: State, hs: seq<MsgHeader>, back: nat): (Exit, State)
    requires 0 < |hs| && back + 1 < |s.file|
  {
    if Judge(p, s, hs, back) != Done then (Judge(p, s, hs, back), s)
    else Extend(p, Switch(s, s.file[..back + 1], hs[0].header), [], hs[1..])
  }

  /** Rolls back to base and puts the first header of the branch on it. */
  function Switch(s: State, base: seq<Header>, h: Header): State
    requires 0 < |base|
  {
    RollBack(s, |base| - 1).(
      file := base + [h],
      list := [Node(|base| - 1, Last(base)), Node(|base|, h)])
  }

  /** The effect of a headers message on a state whose list agrees with its store.
      mayReorg: the peer is the sync peer, or the client is synced. pipelined: the tip a
      prefetch from the sync peer was based on, ZeroHash when there is none. */
  ghost function Handle(p: Params, s: State, msg: seq<MsgHeader>, mayReorg: bool, pipelined: Hash): (Exit, State)
    requires 0 < |s.file|
  {
    if msg == [] then (Empty, s)
    else if !Connected(msg) then (Unconnected, s)
    else if pipelined != ZeroHash && msg[0].header.prev == pipelined != HashOf(Last(s.file)) then (Stale, s)
    else if !mayReorg && msg[0].header.prev != HashOf(Last(s.file)) then (Ignored, s)
    else
      var k := Known(s.file, msg);
      if k == |msg| then (Done, s) else Attach(p, s, msg[k..])
  }

  /** The new headers hs of a message: where their parent is stored decides. */
  ghost function Attach(p: Params, s: State, hs: seq<MsgHeader>): (Exit, State)
    requires 0 < |s.file| && hs != []
  {
    var parent := hs[0].header.prev;
    if parent.ZeroHash? || parent.header !in s.file then (Orphan, s)
    else
      var back := Depth(parent.header);
      if back + 1 < |s.file| then Reorg(p, s, hs, back) else Extend(p, s, [], hs)
  }

  // ---------- any in-memory list ----------

  function Back(list: seq<Node>): Node
    requires list != []
  {
    list[|list| - 1]
  }

  /** The checks on a header that builds on the back of the list. */
  predicate SaneOnList(p: Params, list: seq<Node>, file: seq<Header>, h: MsgHeader)
    requires list != []
  {
    p.sane(AncestorView(list, file, Back(list).height, Back(list).header), h.header, h.cert)
  }

  /** What pushing a header that passed its checks does: nothing more, or the batch is written at
      the next checkpoint, or the stores are rolled back at it. */
  function Pushed(p: Params, s: State, h: Header, height: nat, batch: seq<Header>): (Option<Exit>, State) {
    var pushed := s.(list := Push(p, s.list, height, h));
    if !AtCheckpoint(s.next, height) then (None, pushed)
    else if HashOf(h) == s.next.value.hash then
      (Some(Done), pushed.(file := s.file + batch, next := NextCheckpoint(p.checkpoints, height)))
    else (Some(BadCheckpoint), RollBack(pushed, PreviousCheckpoint(p.genesis, p.checkpoints, height).height))
  }

  /** The headers hs go on the back of the list one by one, whatever the store holds, and what
      was batched is written at the end. */
  function ExtendList(p: Params, s: State, batch: seq<Header>, hs: seq<MsgHeader>): (r: (Exit, State))
    requires s.list != [] && 0 < p.maxMem
    ensures r.1.list != [] && (s.file != [] ==> r.1.file != [])
    decreases |hs|
  {
    if hs == [] then (Done, s.(file := s.file + batch))
    else if !SaneOnList(p, s.list, s.file, hs[0]) then (Insane(|batch|), s)
    else
      var h := hs[0].header;
      var (stop, v) := Pushed(p, s, h, Back(s.list).height + 1, batch + [h]);
      if stop.Some? then (stop.value, v) else ExtendList(p, v, batch + [h], hs[1..])
  }

  /** Length of the run of headers the message starts with that are passed over: they do not
      build on the back b of the list, and are stored or are b itself. */
  ghost function Passed(file: seq<Header>, b: Header, msg: seq<MsgHeader>): (n: nat)
    ensures n <= |msg|
  {
    if msg == [] || msg[0].header.prev == HashOf(b) || (msg[0].header !in file && msg[0].header != b) then 0
    else 1 + Passed(file, b, msg[1..])
  }

  /** The work of the known headers above height back, from height j down: first through the
      list from element el on, then by parent links through the store. */
  function KnownWalk(
      work: nat -> nat, list: seq<Node>, file: seq<Header>, el: int, head: Header, j: int, back: nat,
      total: nat): Option<nat>
    requires -1 <= el < |list|
    decreases j - back
  {
    if j <= back then Some(total)
    else if 0 <= el then
      KnownWalk(work, list, file, el - 1, list[el].header, j - 1, back, total + work(list[el].header.bits))
    else if head.prev.HashOf? && head.prev.header in file then
      KnownWalk(work, list, file, el, head.prev.header, j - 1, back, total + work(head.prev.header.bits))
    else None
  }

  /** The verdict on the work of a sane branch that ends with the header last. */
  function ListWork(p: Params, s: State, last: Header, back: nat, total: nat): Exit
    requires s.list != []
  {
    var tip := Back(s.list);
    var known := KnownWalk(p.work, s.list, s.file, |s.list| - 1, tip.header, tip.height, back, 0);
    if known.None? then Failed
    else if ShouldChangeTip(known.value, total, p.work(tip.header.bits), p.work(last.bits)) then Done
    else LessWork
  }

  /** Whether the branch hs off the stored header at height back is accepted, going by the list. */
  function JudgeList(p: Params, s: State, hs: seq<MsgHeader>, back: nat): Exit
    requires s.list != [] && hs != [] && back < |s.file|
  {
    if back < PreviousCheckpoint(p.genesis, p.checkpoints, Back(s.list).height).height then PastCheckpoint
    else if !AllSane(p, s.file[..back + 1], hs) then InsaneReorg
    else ListWork(p, s, hs[|hs| - 1].header, back, WorkSum(p.work, Plain(hs)))
  }

  /** New headers that do not build on the back of the list. */
  function BranchOff(p: Params, s: State, hs: seq<MsgHeader>): (r: (Exit, State))
    requires s.list != [] && 2 <= p.maxMem && hs != []
    ensures r.1.list != [] && (s.file != [] ==> r.1.file != [])
  {
    var parent := hs[0].header.prev;
    if parent.ZeroHash? || parent.header !in s.file || |s.file| <= Depth(parent.header) then (Orphan, s)
    else
      var fork := Depth(parent.header);
      var verdict := JudgeList(p, s, hs, fork);
      if verdict != Done then (verdict, s)
      else ExtendList(p, Switch(s, s.file[..fork + 1], hs[0].header), [], hs[1..])
  }

  /** The effect of a headers message on any state: the handler goes by the back of the list,
      which need not be the tip of the store. */
  ghost function React(p: Params, s: State, msg: seq<MsgHeader>, mayReorg: bool, pipelined: Hash): (r: (Exit, State))
    requires s.list != [] && 2 <= p.maxMem
    ensures r.1.list != [] && (s.file != [] ==> r.1.file != [])
  {
    var b := Back(s.list).header;
    if msg == [] then (Empty, s)
    else if !Connected(msg) then (Unconnected, s)
    else if pipelined != ZeroHash && msg[0].header.prev == pipelined != HashOf(b) then (Stale, s)
    else if !mayReorg && msg[0].header.prev != HashOf(b) then (Ignored, s)
    else
      var n := Passed(s.file, b, msg);
      if n == |msg| then (Done, s)
      else if msg[n].header.prev == HashOf(b) then ExtendList(p, s, [], msg[n..])
      else BranchOff(p, s, msg[n..])
  }
}
