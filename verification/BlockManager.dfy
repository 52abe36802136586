/** The block manager of the SPV client: the handler of headers messages and its helpers,
    which update the stores, the in-memory lists and the next checkpoint step by step.
    Each method is proved to compute what HeaderRules says. */
module BlockManager {
  import opened Chain
  import opened Stores
  import opened HeaderList
  import opened HeaderRules
  import opened HeaderRuns
  import opened HeaderSafety

  // ---------- facts the loops rest on ----------

  lemma {:induction false} DisconnectsSnoc(file: seq<Header>, height: nat)
    requires height + 1 < |file|
    ensures Disconnects(file, height) ==
      Disconnects(file, height + 1) + [Disconnect(file[height + 1], height + 1, file[height])]
    decreases |file|
  {
    if height + 2 < |file| {
      DisconnectsSnoc(file[..|file| - 1], height);
    } else {
      assert Disconnects(file[..|file| - 1], height) == [];
      assert Disconnects(file, height + 1) == [];
    }
  }

  /** The state without its tip header and without that header's filter header. */
  function TipOff(s: State): State
    requires 1 < |s.file| && |s.filters| <= |s.file|
  {
    var tip := |s.file| - 1;
    s.(file := s.file[..tip],
       filters := if |s.filters| == |s.file| then s.filters[..tip] else s.filters,
       log := s.log + [Disconnect(s.file[tip], tip, s.file[tip - 1])])
  }

  lemma {:induction false} RollBackOneMore(s: State, height: nat)
    requires height + 1 < |s.file| && |s.filters| <= |s.file|
    ensures var t := RollBack(s, height + 1);
      |t.file| == height + 2 && |t.filters| <= |t.file| && RollBack(s, height) == TipOff(t)
  {
    DisconnectsSnoc(s.file, height);
  }

  lemma {:induction false} RollBackNothing(s: State, height: nat)
    requires |s.file| <= height + 1 && |s.filters| <= |s.file|
    ensures RollBack(s, height) == s
  {
  }

  lemma {:induction false} BranchIs(p: Params, s: State, hs: seq<MsgHeader>, back: nat)
    requires ValidParams(p) && ChainOk(p, s) && s.list != [] && hs != []
    requires back < |s.file| && hs[0].header.prev == HashOf(s.file[back])
    ensures BranchOff(p, s, hs) ==
      if JudgeList(p, s, hs, back) != Done then (JudgeList(p, s, hs, back), s)
      else ExtendList(p, Switch(s, s.file[..back + 1], hs[0].header), [], hs[1..])
  {
    DepthIsHeight(p.genesis, s.file, back);
    BranchOffCases(p, s, hs);
  }

  /** What a branch off the stored header at height back does. */
  lemma {:induction false} BranchTaken(p: Params, s: State, hs: seq<MsgHeader>, back: nat)
    requires ValidParams(p) && ChainOk(p, s) && s.list != [] && hs != []
    requires back < |s.file| && hs[0].header.prev == HashOf(s.file[back])
    ensures var v := Switch(s, s.file[..back + 1], hs[0].header);
      && Settled(p, v) && Last(v.file) == hs[0].header
      && BranchOff(p, s, hs) ==
         if JudgeList(p, s, hs, back) != Done then (JudgeList(p, s, hs, back), s)
         else ExtendList(p, v, [], hs[1..])
  {
    BranchIs(p, s, hs, back);
    SwitchSafe(p, s, back, hs[0].header);
  }

  /** What decides on a branch. */
  lemma {:induction false} JudgeParts(p: Params, s: State, hs: seq<MsgHeader>, back: nat)
    requires s.list != [] && hs != [] && back < |s.file|
    ensures JudgeList(p, s, hs, back) ==
      if back < PreviousCheckpoint(p.genesis, p.checkpoints, Back(s.list).height).height then PastCheckpoint
      else if AllSane(p, s.file[..back + 1], hs)
      then ListWork(p, s, hs[|hs| - 1].header, back, WorkSum(p.work, Plain(hs))) else InsaneReorg
  {
  }

  /** The headers taken of branch hs off base were checked: they are in the reorg list after
      the last header of base, their work is in total, and rest is still to be checked. */
  ghost predicate BranchAt(
      p: Params, base: seq<Header>, hs: seq<MsgHeader>, taken: seq<Header>, rest: seq<MsgHeader>, list: seq<Node>,
      total: nat)
  {
    var c := base + taken;
    && IsChain(p.genesis, c) && Agree(c, list) && |taken| <= |list| && |taken| + |rest| <= p.maxMem
    && Connected(rest) && Attached(c, rest)
    && total == WorkSum(p.work, taken) && taken + Plain(rest) == Plain(hs)
    && (AllSane(p, base, hs) <==> AllSane(p, c, rest))
  }

  lemma {:induction false} BranchStart(p: Params, file: seq<Header>, back: nat, hs: seq<MsgHeader>)
    requires IsChain(p.genesis, file) && back < |file| && Connected(hs) && |hs| <= p.maxMem
    requires hs != [] && hs[0].header.prev == HashOf(file[back])
    ensures BranchAt(p, file[..back + 1], hs, [], hs, [Node(back, file[back])], 0)
  {
    PrefixIsChain(p.genesis, file, back + 1);
    assert file[..back + 1] + [] == file[..back + 1];
  }

  /** Checking a branch header against the reorg list is checking it against the branch. */
  lemma {:induction false} BranchView(p: Params, file: seq<Header>, back: nat, taken: seq<Header>, list: seq<Node>)
    requires ValidParams(p) && back < |file|
    requires IsChain(p.genesis, file[..back + 1] + taken) && Agree(file[..back + 1] + taken, list) && |taken| <= |list|
    ensures var c := file[..back + 1] + taken; AncestorView(list, file, back + |taken|, Last(c)) == AllKnown(c)
  {
    SuffixCovers(list, file, file[..back + 1] + taken, back + 1);
    ViewIsAncestry(p, list, file, file[..back + 1] + taken);
  }

  lemma {:induction false} BranchMore(
      p: Params, base: seq<Header>, hs: seq<MsgHeader>, taken: seq<Header>, rest: seq<MsgHeader>, list: seq<Node>,
      total: nat)
    requires ValidParams(p) && base != [] && BranchAt(p, base, hs, taken, rest, list, total) && rest != []
    ensures var c, h := base + taken, rest[0].header;
      if SaneOn(p, c, rest[0])
      then BranchAt(p, base, hs, taken + [h], rest[1..], Push(p, list, |c|, h), total + p.work(h.bits))
      else !AllSane(p, base, hs)
  {
    var c, h := base + taken, rest[0].header;
    assert base + (taken + [h]) == c + [h];
    ExtendsChain(p, c, h);
    PushAgrees(p, c, list, h);
    ConnectedTail(rest, 1);
    WorkSumConcat(p.work, taken, [h]);
    assert [h][1..] == [];
    assert taken + [h] + Plain(rest[1..]) == taken + Plain(rest);
  }

  /** One header of a branch: checking it as the code does tells whether the branch goes on. */
  lemma {:induction false} BranchStep(
      p: Params, file: seq<Header>, back: nat, hs: seq<MsgHeader>, taken: seq<Header>, msg: seq<MsgHeader>, j: nat,
      list: seq<Node>, total: nat, parent: Header, above: nat, next: nat)
    requires ValidParams(p) && back < |file| && j < |msg| && next == j + 1 && above == back + 1 + |taken|
    requires BranchAt(p, file[..back + 1], hs, taken, msg[j..], list, total) && parent == Last(file[..back + 1] + taken)
    ensures if p.sane(AncestorView(list, file, above - 1, parent), msg[j].header, msg[j].cert)
      then BranchAt(p, file[..back + 1], hs, taken + [msg[j].header], msg[next..],
                    Push(p, list, above, msg[j].header), total + p.work(msg[j].header.bits))
      else !AllSane(p, file[..back + 1], hs)
  {
    BranchView(p, file, back, taken, list);
    BranchMore(p, file[..back + 1], hs, taken, msg[j..], list, total);
    assert msg[j..][1..] == msg[next..];
  }

  /** The store is a chain and the in-memory list agrees with it and is within its bound. */
  ghost predicate Settled(p: Params, s: State) {
    ValidParams(p) && ChainOk(p, s) && Agree(s.file, s.list) && |s.list| <= p.maxMem
  }

  /** Switching is rolling back to the fork, writing the first header and resetting the list. */
  lemma {:induction false} SwitchIs(p: Params, s: State, back: nat, backHead: Header, h: Header)
    requires ValidParams(p) && ChainOk(p, s) && back < |s.file| && backHead == s.file[back]
    requires h.prev == HashOf(backHead)
    ensures var base := s.file[..back + 1];
      && RollBack(s, back).file == base && IsChain(p.genesis, base + [h])
      && Switch(s, base, h) ==
         RollBack(s, back).(file := base + [h], list := [Node(back, backHead), Node(back + 1, h)])
  {
    SwitchSafe(p, s, back, h);
  }

  /** How far the loop over a message has come: still among headers that are passed over, or every
      header goes on the back of the list. */
  datatype Phase = Scanning | Extending

  /** The first i headers of msg were handled from state s0, giving v and batch, and handling
      all of msg gives want. */
  ghost predicate Progress(
      p: Params, s0: State, msg: seq<MsgHeader>, mayReorg: bool, want: (Exit, State), i: nat, v: State,
      batch: seq<(Header, nat)>, ph: Phase)
  {
    StageOf(p, s0, msg, mayReorg, want, i, v, batch, ph) == OnTrack
  }

  datatype Stage = OnTrack | OffTrack

  /** The same as one value. */
  ghost function StageOf(
      p: Params, s0: State, msg: seq<MsgHeader>, mayReorg: bool, want: (Exit, State), i: nat, v: State,
      batch: seq<(Header, nat)>, ph: Phase): Stage
  {
    if !(i <= |msg| && Connected(msg) && v.list != [] && s0.list != [] && 2 <= p.maxMem) then OffTrack
    else
      match ph
      case Scanning =>
        if && v == s0 && batch == [] && i <= Passed(s0.file, Back(s0.list).header, msg) && (0 < i ==> mayReorg)
           && msg != [] && want == React(p, s0, msg, mayReorg, ZeroHash) then OnTrack else OffTrack
      case Extending =>
        if && (i < |msg| ==> msg[i].header.prev == HashOf(Back(v.list).header))
           && want == ExtendList(p, v, Headers(batch), msg[i..]) then OnTrack else OffTrack
  }

  /** A header that builds on the back of the list starts or continues an extension, and one
      that does not is only met among the headers passed over: no branch is considered once a
      header was batched. */
  lemma {:induction false} ProgressAt(
      p: Params, s0: State, msg: seq<MsgHeader>, mayReorg: bool, want: (Exit, State), i: nat, v: State,
      batch: seq<(Header, nat)>, ph: Phase)
    requires Progress(p, s0, msg, mayReorg, want, i, v, batch, ph) && i < |msg|
    ensures v.list != [] && 2 <= p.maxMem && Connected(msg)
    ensures var back := Back(v.list).header;
      if msg[i].header.prev == HashOf(back) then Progress(p, s0, msg, mayReorg, want, i, v, batch, Extending)
      else
        && ph == Scanning && v == s0
        && (!mayReorg ==> want == (Ignored, v))
        && (mayReorg && (msg[i].header in v.file || msg[i].header == back) ==>
              Progress(p, s0, msg, mayReorg, want, i + 1, v, batch, Scanning))
        && (mayReorg && msg[i].header !in v.file && msg[i].header != back ==> want == BranchOff(p, v, msg[i..]))
  {
    if ph == Scanning { PassedRun(s0.file, Back(s0.list).header, msg); }
  }

  /** The end of a message: what was batched is written. */
  lemma {:induction false} ProgressEnds(
      p: Params, s0: State, msg: seq<MsgHeader>, mayReorg: bool, want: (Exit, State), v: State,
      batch: seq<(Header, nat)>, ph: Phase)
    requires Progress(p, s0, msg, mayReorg, want, |msg|, v, batch, ph)
    ensures want == (Done, v.(file := v.file + Headers(batch)))
  {
    assert msg[|msg|..] == [];
    if ph == Scanning { assert v.file + Headers(batch) == v.file; }
  }

  /** The ways to take a header that builds on the back of the list. */
  lemma {:induction false} ExtensionStep(
      p: Params, s0: State, msg: seq<MsgHeader>, mayReorg: bool, want: (Exit, State), i: nat, v: State,
      batch: seq<(Header, nat)>, next: nat)
    requires Progress(p, s0, msg, mayReorg, want, i, v, batch, Extending) && i < |msg| && next == i + 1
    ensures v.list != []
    ensures var h, height := msg[i].header, Back(v.list).height + 1;
      var batch' := batch + [(h, height)];
      if !SaneOnList(p, v.list, v.file, msg[i]) then want == (Insane(|batch|), v)
      else
        var (stop, v') := Pushed(p, v, h, height, Headers(batch'));
        if stop.Some? then want == (stop.value, v')
        else Progress(p, s0, msg, mayReorg, want, next, v', batch', Extending)
  {
    var h, height := msg[i].header, Back(v.list).height + 1;
    var hs := msg[i..];
    assert hs[0] == msg[i] && hs[1..] == msg[next..];
    assert Headers(batch + [(h, height)]) == Headers(batch) + [h];
    ExtendListFirst(p, v, Headers(batch), hs);
    PushBackIs(p, v.list, height, h);
    if next < |msg| { assert FollowsAt(msg, next); }
  }

  /** The back of the list and every header batched are at the heights their ancestry gives. */
  ghost predicate Laid(list: seq<Node>, batch: seq<(Header, nat)>) {
    Placed(list) && forall k :: 0 <= k < |batch| ==> batch[k].1 == Depth(batch[k].0)
  }

  lemma {:induction false} LaidMore(p: Params, list: seq<Node>, batch: seq<(Header, nat)>, h: Header)
    requires Laid(list, batch) && 0 < p.maxMem && h.prev == HashOf(Back(list).header)
    ensures var height := Back(list).height + 1;
      Laid(Push(p, list, height, h), batch + [(h, height)])
  {
    PushBackIs(p, list, Back(list).height + 1, h);
  }

  /** A batch that is laid and makes a chain with the stored headers is indexed after them. */
  lemma {:induction false} LaidIsConsecutive(p: Params, file: seq<Header>, list: seq<Node>, batch: seq<(Header, nat)>)
    requires ValidParams(p) && Laid(list, batch) && IsChain(p.genesis, file + Headers(batch))
    ensures Consecutive(batch, |file|)
  {
    var c := file + Headers(batch);
    forall k | 0 <= k < |batch| ensures batch[k].1 == |file| + k {
      DepthIsHeight(p.genesis, c, |file| + k);
      assert c[|file| + k] == batch[k].0;
    }
  }

  lemma {:induction false} LaidContinues(
      p: Params, file: seq<Header>, list: seq<Node>, batch: seq<(Header, nat)>, h: Header, height: nat,
      batch': seq<(Header, nat)>)
    requires ValidParams(p) && Laid(list, batch) && h.prev == HashOf(Back(list).header)
    requires height == Back(list).height + 1 && batch' == batch + [(h, height)]
    ensures Laid(Push(p, list, height, h), batch')
    ensures IsChain(p.genesis, file + Headers(batch')) ==> Consecutive(batch', |file|)
  {
    LaidMore(p, list, batch, h);
    if IsChain(p.genesis, file + Headers(batch')) {
      LaidIsConsecutive(p, file, Push(p, list, height, h), batch');
    }
  }

  /** The branch msg[i..] hangs off the stored header at height back. */
  ghost predicate Branches(p: Params, file: seq<Header>, msg: seq<MsgHeader>, i: nat, back: nat, backHead: Header) {
    && ValidParams(p) && IsChain(p.genesis, file) && i < |msg| <= p.maxMem && Connected(msg)
    && back < |file| && backHead == file[back] && msg[i].header.prev == HashOf(backHead)
  }

  /** The back of a list that agrees with the store is its tip, at the right height. */
  lemma {:induction false} SettledPlaced(p: Params, s: State)
    requires Settled(p, s)
    ensures Placed(s.list) && Back(s.list).header == Last(s.file)
  {
    DepthIsHeight(p.genesis, s.file, |s.file| - 1);
  }

  /** What a message tells of, and when the next checkpoint moves on. */
  ghost predicate Accounted(
      p: Params, s: State, msg: seq<MsgHeader>, mayReorg: bool, pipelined: Hash, e: Exit, s': State)
    requires s.list != []
  {
    TellsOfMessage(p, s, msg, mayReorg, pipelined, e, s') && MovesOn(p, s, e, s')
  }

  /** All that the handler needs of a message on any list. */
  lemma {:induction false} HeadersReact(p: Params, s: State, msg: seq<MsgHeader>, mayReorg: bool, pipelined: Hash)
    requires ValidParams(p) && ChainOk(p, s) && s.list != []
    ensures var (e, s') := React(p, s, msg, mayReorg, pipelined);
      && (IsChain(p.genesis, s'.file) <==> !Grafts(p, s, msg, mayReorg, pipelined))
      && (Placed(s.list) ==> Placed(s'.list)) && Accounted(p, s, msg, mayReorg, pipelined, e, s')
  {
    ReactChain(p, s, msg, mayReorg, pipelined);
    ReactTells(p, s, msg, mayReorg, pipelined);
    ReactMovesOn(p, s, msg, mayReorg, pipelined);
    if Placed(s.list) { ReactPlaced(p, s, msg, mayReorg, pipelined); }
  }

  /** What is checked before the headers are looked at. */
  lemma {:induction false} ReactFirst(p: Params, s: State, msg: seq<MsgHeader>, mayReorg: bool, pipelined: Hash)
    requires s.list != [] && 2 <= p.maxMem
    ensures React(p, s, msg, mayReorg, pipelined) ==
      if msg == [] then (Empty, s)
      else if !Connected(msg) then (Unconnected, s)
      else if pipelined != ZeroHash && msg[0].header.prev == pipelined != HashOf(Back(s.list).header) then (Stale, s)
      else React(p, s, msg, mayReorg, ZeroHash)
  {
  }

  lemma {:induction false} ReadyReacts(p: Params, s: State, msg: seq<MsgHeader>, mayReorg: bool, pipelined: Hash)
    requires Settled(p, s) && |msg| <= p.maxMem
    ensures React(p, s, msg, mayReorg, pipelined) == Handle(p, s, msg, mayReorg, pipelined)
    ensures Placed(s.list) && !Grafts(p, s, msg, mayReorg, pipelined)
  {
    SettledPlaced(p, s);
    ReactIsHandle(p, s, msg, mayReorg, pipelined);
  }

  class Manager {
    const p: Params
    const stores: ChainStores
    var headerList: seq<Node>
    var reorgList: seq<Node>
    var nextCheckpoint: Option<Checkpoint>
    var log: seq<Disconnect>

    ghost function View(): State
      reads this`headerList, this`nextCheckpoint, this`log, stores
    {
      State(stores.file, stores.filters, headerList, nextCheckpoint, log)
    }

    ghost predicate Valid()
      reads this`nextCheckpoint, stores
    {
      && stores.Valid() && stores.genesis == p.genesis && ValidParams(p)
      && (nextCheckpoint.Some? ==> nextCheckpoint.value in p.checkpoints)
    }

    /** Valid, and the in-memory list agrees with the store. */
    ghost predicate Ready()
      reads this`headerList, this`nextCheckpoint, this`log, stores
    {
      Valid() && Settled(p, View())
    }

    /** newBlockManager on existing stores. */
    constructor (p: Params, stores: ChainStores)
      requires stores.Valid() && stores.genesis == p.genesis && ValidParams(p)
      ensures this.p == p && this.stores == stores && Ready() && log == []
      ensures nextCheckpoint == NextCheckpoint(p.checkpoints, |stores.file| - 1)
    {
      this.p, this.stores := p, stores;
      headerList, reorgList, log := [Node(stores.ChainTip().value.1, stores.ChainTip().value.0)], [], [];
      nextCheckpoint := NextCheckpoint(p.checkpoints, stores.ChainTip().value.1);
    }

    method FindPreviousHeaderCheckpoint(height: nat) returns (r: Checkpoint)
      ensures Ascending(p.checkpoints) ==> r == PreviousCheckpoint(p.genesis, p.checkpoints, height)
    {
      r := Checkpoint(0, HashOf(p.genesis));
      var i := 0;
      while i < |p.checkpoints|
        invariant 0 <= i <= |p.checkpoints|
        invariant forall j :: 0 <= j < i ==> p.checkpoints[j].height < height
        invariant r == if i == 0 then Checkpoint(0, HashOf(p.genesis)) else p.checkpoints[i - 1]
      {
        if height <= p.checkpoints[i].height {
          break;
        }
        r := p.checkpoints[i];
        i := i + 1;
      }
      if Ascending(p.checkpoints) {
        PreviousIs(p.genesis, p.checkpoints, height, i);
      }
    }

    static lemma {:induction false} PreviousIs(genesis: Header, cps: seq<Checkpoint>, height: nat, i: nat)
      requires i <= |cps| && forall j :: 0 <= j < i ==> cps[j].height < height
      requires forall j :: i <= j < |cps| ==> height <= cps[j].height
      ensures PreviousCheckpoint(genesis, cps, height) ==
        if i == 0 then Checkpoint(0, HashOf(genesis)) else cps[i - 1]
      decreases |cps|
    {
      if i < |cps| {
        PreviousIs(genesis, cps[..|cps| - 1], height, i);
      }
    }

    method FindNextHeaderCheckpoint(height: nat) returns (r: Option<Checkpoint>)
      ensures Ascending(p.checkpoints) ==> r == NextCheckpoint(p.checkpoints, height)
    {
      var cps := p.checkpoints;
      if |cps| == 0 {
        return None;
      }
      if height >= cps[|cps| - 1].height {
        if Ascending(cps) { NextIs(cps, height, |cps|); }
        return None;
      }
      r := Some(cps[|cps| - 1]);
      var i := |cps| - 2;
      while i >= 0
        invariant -1 <= i < |cps| - 1
        invariant r == Some(cps[i + 1])
        invariant forall j :: i < j < |cps| ==> height < cps[j].height
      {
        if height >= cps[i].height {
          break;
        }
        r := Some(cps[i]);
        i := i - 1;
      }
      if Ascending(cps) { NextIs(cps, height, i + 1); }
    }

    static lemma {:induction false} NextIs(cps: seq<Checkpoint>, height: nat, i: nat)
      requires i <= |cps| && forall j :: 0 <= j < i ==> cps[j].height <= height
      requires forall j :: i <= j < |cps| ==> height < cps[j].height
      ensures NextCheckpoint(cps, height) == if i == |cps| then None else Some(cps[i])
      decreases |cps|
    {
      if 0 < i {
        NextIs(cps[1..], height, i - 1);
      }
    }

    static method AreHeadersConnected(msg: seq<MsgHeader>) returns (r: bool)
      ensures r <==> Connected(msg)
    {
      var last := ZeroHash;
      for i := 0 to |msg|
        invariant last == if i == 0 then ZeroHash else HashOf(msg[i - 1].header)
        invariant forall j :: 0 < j < i ==> FollowsAt(msg, j)
      {
        var hash := HashOf(msg[i].header);
        if last == ZeroHash {
          last := hash;
        } else {
          if msg[i].header.prev != last {
            assert !FollowsAt(msg, i);
            return false;
          }
          last := hash;
        }
      }
      return true;
    }

    /** hash, tip and filterTip are the block tip's hash and height and the filter tip's height. */
    ghost predicate AtTips(hash: Hash, tip: nat, filterTip: nat)
      reads this`nextCheckpoint, stores
    {
      && Valid() && tip == |stores.file| - 1 && hash == HashOf(Last(stores.file))
      && filterTip == |stores.filters| - 1
    }

    /** Removes the tip header from the stores, with its filter header if there is one. */
    method DropTip(prev: Hash, tip: nat, filterTip: nat) returns (stamp: Option<(Hash, nat)>, newFilterTip: nat)
      modifies stores
      ensures stamp.Some? ==> |stores.file| < |old(stores.file)|
      ensures old(AtTip(prev, tip, filterTip)) ==>
        && stores.Valid() && stamp == Some((prev, tip - 1)) && newFilterTip == |stores.filters| - 1
        && stores.file == old(stores.file)[..tip]
        && stores.filters == if tip == filterTip then old(stores.filters)[..tip] else old(stores.filters)
    {
      ghost var good := AtTip(prev, tip, filterTip);
      stamp, newFilterTip := None, filterTip;
      if tip <= filterTip {
        var rolled := stores.RollbackLastFilter(prev);
        if rolled.None? {
          return;
        }
        newFilterTip := rolled.value;
      }
      assert good ==> stores.Valid();
      stamp := stores.RollbackLastBlock();
    }

    /** The stores have more than genesis, the given tip heights, and prev below the tip. */
    ghost predicate AtTip(prev: Hash, tip: nat, filterTip: nat)
      reads stores
    {
      && stores.Valid() && 0 < tip == |stores.file| - 1 && prev == HashOf(stores.file[tip - 1])
      && filterTip == |stores.filters| - 1
    }

    /** Removes the tip header from the stores and returns it with its height and its parent. */
    method TakeTip(hash: Hash, tip: nat, filterTip: nat)
      returns (gone: Option<Disconnect>, newHash: Hash, newTip: nat, newFilterTip: nat)
      modifies stores
      ensures gone.Some? ==> |stores.file| < |old(stores.file)|
      ensures old(AtTips(hash, tip, filterTip)) && 0 < tip ==>
        && AtTips(newHash, newTip, newFilterTip) && newTip == tip - 1
        && gone == Some(Disconnect(old(stores.file)[tip], tip, old(stores.file)[tip - 1]))
        && stores.file == old(stores.file)[..tip]
        && stores.filters == if tip == filterTip then old(stores.filters)[..tip] else old(stores.filters)
    {
      ghost var good := AtTips(hash, tip, filterTip) && 0 < tip;
      gone, newHash, newTip, newFilterTip := None, hash, tip, filterTip;
      var fetched := stores.FetchHeader(hash);
      if fetched.None? {
        return;
      }
      var (header, headerHeight) := fetched.value;
      if good {
        DepthIsHeight(stores.genesis, stores.file, tip);
        DepthIsHeight(stores.genesis, stores.file, headerHeight);
        assert LinkAt(stores.file, tip);
      }
      var stamp;
      stamp, newFilterTip := DropTip(header.prev, tip, filterTip);
      if stamp.None? {
        return;
      }
      newHash, newTip := stamp.value.0, stamp.value.1;
      var parent := stores.FetchHeader(header.prev);
      if parent.None? {
        return;
      }
      gone := Some(Disconnect(header, headerHeight, parent.value.0));
    }

    /** Removes the tip header, with its filter header if there is one, and reports it. */
    method RollBackTip(hash: Hash, tip: nat, filterTip: nat)
      returns (ok: bool, newHash: Hash, newTip: nat, newFilterTip: nat)
      modifies this`log, stores
      ensures ok ==> |stores.file| < |old(stores.file)|
      ensures old(AtTips(hash, tip, filterTip)) && 0 < tip ==>
        && ok && AtTips(newHash, newTip, newFilterTip) && newTip == tip - 1
        && View() == TipOff(old(View())) && stores.file == old(stores.file)[..tip]
        && log == old(log) + [Disconnect(old(stores.file)[tip], tip, old(stores.file)[tip - 1])]
    {
      var gone;
      gone, newHash, newTip, newFilterTip := TakeTip(hash, tip, filterTip);
      if gone.None? {
        return false, newHash, newTip, newFilterTip;
      }
      log := log + [gone.value];
      ok := true;
    }

    /** Rolls both stores back and reports each removed header. */
    method RollBackToHeight(height: nat) returns (ok: bool)
      modifies this`log, stores
      ensures old(Valid()) ==> ok && Valid() && View() == RollBack(old(View()), height)
      ensures old(Valid()) ==>
        && stores.file == old(stores.file)[..KeptLength(|old(stores.file)|, height)]
        && stores.filters == old(stores.filters)[..KeptLength(|old(stores.filters)|, height)]
        && Reported(old(stores.file), |stores.file|, old(log), log)
    {
      if Valid() { RollBackReports(View(), height); }
      if stores.ChainTip().None? || stores.FilterChainTip().None? {
        return false;
      }
      var hash, tip: nat := HashOf(stores.ChainTip().value.0), stores.ChainTip().value.1;
      ok := RollBackFrom(hash, tip, stores.FilterChainTip().value.1, height);
    }

    /** The loop of rollBackToHeight, from the tips it starts with. */
    method RollBackFrom(fromHash: Hash, from: nat, fromFilter: nat, height: nat) returns (ok: bool)
      modifies this`log, stores
      ensures old(AtTips(fromHash, from, fromFilter)) ==> ok && Valid() && View() == RollBack(old(View()), height)
    {
      ghost var good, s := AtTips(fromHash, from, fromFilter), View();
      ghost var low: nat := if from < height then height else from;
      var hash, tip: nat, filterTip: nat := fromHash, from, fromFilter;
      if good { RollBackNothing(s, low); }
      while tip > height
        invariant good ==> AtTips(hash, tip, filterTip) && View() == RollBack(s, low)
        invariant low == if tip < height then height else tip
        decreases |stores.file|
      {
        if good { RollBackOneMore(s, tip - 1); }
        ok, hash, tip, filterTip := RollBackTip(hash, tip, filterTip);
        if !ok {
          return;
        }
        low := if tip < height then height else tip;
      }
      return true;
    }

    /** handleDonePeerMsg for the sync peer: the list is reset to the store's tip. */
    method ResetHeaderState()
      modifies this`headerList
      ensures old(Valid()) ==> Ready() && View() == Reset(old(View()))
    {
      if stores.ChainTip().Some? {
        var (header, height) := stores.ChainTip().value;
        headerList := [Node(height, header)];
      }
    }

    method RelativeAncestorCtx(list: seq<Node>, height: int, distance: int) returns (r: Option<Header>)
      ensures r == RelativeAncestor(list, stores.file, height, distance)
    {
      var at, i := height - distance, |list| - 1;
      assert list[..i + 1] == list;
      while 0 <= i
        invariant -1 <= i < |list|
        invariant FindInList(list, at) == FindInList(list[..i + 1], at)
      {
        if list[i].height == at {
          return Some(list[i].header);
        }
        assert list[..i + 1][..i] == list[..i];
        i := i - 1;
      }
      r := stores.FetchHeaderByHeight(at);
    }

    /** checkHeaderSanity: the checks see the parent and every ancestor lookup. */
    predicate CheckHeaderSanity(h: MsgHeader, list: seq<Node>, prevHeight: nat, prev: Header)
      reads stores
    {
      p.sane(AncestorView(list, stores.file, prevHeight, prev), h.header, h.cert)
    }

    /** Checks the headers of a branch one after the other and adds up their work. */
    method CheckBranch(msg: seq<MsgHeader>, i: nat, back: nat, backHead: Header) returns (ok: bool, total: nat)
      requires i < |msg|
      modifies this`reorgList
      ensures Branches(p, stores.file, msg, i, back, backHead) ==>
        && (ok <==> AllSane(p, stores.file[..back + 1], msg[i..]))
        && (ok ==> total == WorkSum(p.work, Plain(msg[i..])))
    {
      ghost var good, file, taken := Branches(p, stores.file, msg, i, back, backHead), stores.file, [];
      ghost var base, hs := if good then file[..back + 1] else [], msg[i..];
      reorgList, total := [Node(back, backHead)], 0;
      var j := i;
      if good {
        ConnectedTail(msg, i);
        BranchStart(p, file, back, hs);
      }
      while j < |msg|
        invariant i <= j <= |msg| && |taken| == j - i
        invariant 0 < j ==> i == j || taken[|taken| - 1] == msg[j - 1].header
        invariant good ==> BranchAt(p, base, hs, taken, msg[j..], reorgList, total)
      {
        var parent, above, next := if j == 0 then backHead else msg[j - 1].header, back + 1 + (j - i), j + 1;
        if good {
          ConnectedTail(msg, j);
          BranchStep(p, file, back, hs, taken, msg, j, reorgList, total, parent, above, next);
        }
        ok := CheckHeaderSanity(msg[j], reorgList, above - 1, parent);
        if !ok {
          return;
        }
        total := total + p.work(msg[j].header.bits);
        reorgList := Push(p, reorgList, above, msg[j].header);
        taken := taken + [msg[j].header];
        j := next;
      }
      assert msg[|msg|..] == [] && taken + [] == taken;
      ok := true;
    }

    /** Adds up the work of the known headers above height back, from the tip down: first
        through the in-memory list, then through the store. None when a lookup fails. */
    method KnownWork(back: nat) returns (r: Option<nat>)
      requires headerList != []
      ensures Valid() ==>
        r == KnownWalk(p.work, headerList, stores.file, |headerList| - 1, Back(headerList).header,
                       Back(headerList).height, back, 0)
      ensures Ready() && back < |stores.file| ==> r == Some(WorkSum(p.work, stores.file[back + 1..]))
    {
      if Ready() && back < |stores.file| { KnownSum(p, View(), back); }
      r := WalkKnown(back);
    }

    /** The walk itself. */
    method WalkKnown(back: nat) returns (r: Option<nat>)
      requires headerList != []
      ensures stores.Valid() ==>
        r == KnownWalk(p.work, headerList, stores.file, |headerList| - 1, Back(headerList).header,
                       Back(headerList).height, back, 0)
    {
      var el := |headerList| - 1;
      var total: nat, j: int, head := 0, headerList[el].height, headerList[el].header;
      ghost var want := KnownWalk(p.work, headerList, stores.file, el, head, j, back, 0);
      while j > back
        invariant -1 <= el < |headerList|
        invariant stores.Valid() ==> want == KnownWalk(p.work, headerList, stores.file, el, head, j, back, total)
      {
        if 0 <= el {
          head := headerList[el].header;
          el := el - 1;
        } else {
          var fetched := stores.FetchHeader(head.prev);
          if fetched.None? {
            return None;
          }
          head := fetched.value.0;
        }
        total := total + p.work(head.bits);
        j := j - 1;
      }
      return Some(total);
    }

    /** Decides whether the branch msg[i..] off the stored header backHead is accepted. */
    method JudgeBranch(msg: seq<MsgHeader>, i: nat, back: nat, backHead: Header) returns (exit: Exit)
      requires i < |msg| && headerList != []
      modifies this`reorgList
      ensures old(Valid()) && Branches(p, stores.file, msg, i, back, backHead) ==>
        exit == JudgeList(p, View(), msg[i..], back)
    {
      ghost var good, s, hs := Valid() && Branches(p, stores.file, msg, i, back, backHead), View(), msg[i..];
      ghost var want := if good then JudgeList(p, s, hs, back) else Failed;
      if good { JudgeParts(p, s, hs, back); }
      var tip := headerList[|headerList| - 1];
      var cp := FindPreviousHeaderCheckpoint(tip.height);
      if back < cp.height {
        return PastCheckpoint;
      }
      assert good ==> hs[|hs| - 1] == msg[|msg| - 1];
      exit := JudgeHeaders(msg, i, back, backHead);
      assert View() == s && (good ==> exit == want);
    }

    /** The checks of a branch that is not below a checkpoint already passed. */
    method JudgeHeaders(msg: seq<MsgHeader>, i: nat, back: nat, backHead: Header) returns (exit: Exit)
      requires i < |msg| && headerList != []
      modifies this`reorgList
      ensures old(Valid()) && Branches(p, stores.file, msg, i, back, backHead) ==>
        exit == if AllSane(p, stores.file[..back + 1], msg[i..])
                then ListWork(p, View(), msg[|msg| - 1].header, back, WorkSum(p.work, Plain(msg[i..])))
                else InsaneReorg
    {
      var ok, total := CheckBranch(msg, i, back, backHead);
      if !ok {
        return InsaneReorg;
      }
      exit := CompareWork(msg[|msg| - 1].header, back, total);
    }

    /** Compares the work of the branch with that of the known headers above the fork. */
    method CompareWork(last: Header, back: nat, total: nat) returns (exit: Exit)
      requires headerList != []
      ensures Valid() ==> exit == ListWork(p, View(), last, back, total)
      ensures Ready() && back < |stores.file| ==>
        exit == if ShouldChangeTip(WorkSum(p.work, stores.file[back + 1..]), total,
                                   p.work(Last(stores.file).bits), p.work(last.bits)) then Done else LessWork
    {
      var tip := headerList[|headerList| - 1];
      var known := KnownWork(back);
      if known.None? {
        return Failed;
      }
      if !ShouldChangeTip(known.value, total, p.work(tip.header.bits), p.work(last.bits)) {
        return LessWork;
      }
      return Done;
    }

    /** The batch makes a chain with the stored headers and is to be indexed after them. */
    ghost predicate Continues(file: seq<Header>, batch: seq<(Header, nat)>) {
      IsChain(p.genesis, file + Headers(batch)) && Consecutive(batch, |file|)
    }

    /** Writes a batch of headers after the stored ones. */
    method StoreBatch(batch: seq<(Header, nat)>)
      modifies stores
      ensures View() == old(View()).(file := old(stores.file) + Headers(batch))
      ensures old(Valid()) && Continues(old(stores.file), batch) ==> Valid()
    {
      if 0 < |batch| {
        stores.WriteHeaders(batch);
      } else {
        assert stores.file == stores.file + Headers(batch);
      }
    }

    /** The header builds on the stored header backHead at height back. */
    ghost predicate Forks(h: Header, back: nat, backHead: Header)
      reads stores
    {
      back < |stores.file| && backHead == stores.file[back] && h.prev == HashOf(backHead)
    }

    /** Rolls the stores back to the fork and stores the first header of the branch. */
    method SwitchToBranch(h: Header, back: nat, backHead: Header) returns (exit: Exit)
      modifies this`headerList, this`log, stores
      ensures old(Valid() && Forks(h, back, backHead)) ==>
        exit == Done && Valid() && View() == Switch(old(View()), old(stores.file)[..back + 1], h)
    {
      ghost var good, s := Valid() && Forks(h, back, backHead), View();
      var batch := [(h, back + 1)];
      assert Headers(batch) == [h] && Consecutive(batch, back + 1);
      if good { SwitchIs(p, s, back, backHead, h); }
      var rolled := RollBackToHeight(back);
      if !rolled {
        return Failed;
      }
      assert good ==> stores.file + Headers(batch) == s.file[..back + 1] + [h];
      StoreBatch(batch);
      headerList := [Node(back, backHead), Node(back + 1, h)];
      return Done;
    }

    /** Writes the batch and moves the next checkpoint on. */
    method Finish(batch: seq<(Header, nat)>, receivedCheckpoint: bool, finalHeight: nat)
      modifies this`nextCheckpoint, stores
      ensures ValidParams(p) ==>
        View() == old(View()).(file := old(stores.file) + Headers(batch),
          next := if receivedCheckpoint then NextCheckpoint(p.checkpoints, finalHeight) else old(nextCheckpoint))
      ensures old(Valid()) && Continues(old(stores.file), batch) ==> Valid()
    {
      StoreBatch(batch);
      if receivedCheckpoint {
        nextCheckpoint := FindNextHeaderCheckpoint(finalHeight);
      }
    }

    /** Handles a header that does not build on the back of the list and is not stored. Done means
        its branch was accepted and the header stored. */
    method HandleBranch(msg: seq<MsgHeader>, i: nat) returns (exit: Exit)
      requires i < |msg| && headerList != []
      modifies this`headerList, this`reorgList, this`log, stores
      ensures old(Valid()) && Connected(msg) && |msg| <= p.maxMem ==>
        && Valid() && headerList != []
        && (exit != Done ==> BranchOff(p, old(View()), msg[i..]) == (exit, View()))
        && (exit == Done ==>
              && BranchOff(p, old(View()), msg[i..]) == ExtendList(p, View(), [], msg[i..][1..])
              && Settled(p, View()) && Last(stores.file) == msg[i].header)
    {
      ghost var good, s, hs := Valid() && Connected(msg) && |msg| <= p.maxMem, View(), msg[i..];
      var fetched := stores.FetchHeader(msg[i].header.prev);
      if fetched.None? {
        return Orphan;
      }
      var (backHead, back) := fetched.value;
      if good { BranchTaken(p, s, hs, back); }
      exit := JudgeBranch(msg, i, back, backHead);
      if exit != Done {
        return;
      }
      exit := SwitchToBranch(msg[i].header, back, backHead);
    }

    /** Takes a header that builds on the back of the list: checks it, pushes it to the list
        and the batch, and compares it with the next checkpoint. stop is the exit taken here. */
    method HandleExtension(h: MsgHeader, batch: seq<(Header, nat)>)
      returns (stop: Option<Exit>, newBatch: seq<(Header, nat)>)
      requires headerList != []
      modifies this`headerList, this`nextCheckpoint, this`log, stores
      ensures old(Valid()) && !SaneOnList(p, old(headerList), old(stores.file), h) ==>
        stop == Some(Insane(|batch|)) && newBatch == batch && View() == old(View()) && Valid()
      ensures old(Valid()) && SaneOnList(p, old(headerList), old(stores.file), h) ==>
        && newBatch == batch + [(h.header, Back(old(headerList)).height + 1)]
        && (stop, View()) ==
           Pushed(p, old(View()), h.header, Back(old(headerList)).height + 1, Headers(newBatch))
        && (stop != Some(Done) || Continues(old(stores.file), newBatch) ==> Valid())
    {
      var prev := headerList[|headerList| - 1];
      if !CheckHeaderSanity(h, headerList, prev.height, prev.header) {
        return Some(Insane(|batch|)), batch;
      }
      stop, newBatch := PushHeader(h.header, prev.height + 1, batch);
    }

    /** Pushes a header that passed its checks, and compares it with the next checkpoint. */
    method PushHeader(h: Header, height: nat, batch: seq<(Header, nat)>)
      returns (stop: Option<Exit>, newBatch: seq<(Header, nat)>)
      modifies this`headerList, this`nextCheckpoint, this`log, stores
      ensures newBatch == batch + [(h, height)]
      ensures old(Valid()) ==>
        && (stop, View()) == Pushed(p, old(View()), h, height, Headers(newBatch))
        && (stop != Some(Done) || Continues(old(stores.file), newBatch) ==> Valid())
    {
      newBatch := batch + [(h, height)];
      headerList := Push(p, headerList, height, h);
      if nextCheckpoint.None? || nextCheckpoint.value.height != height {
        return None, newBatch;
      }
      var exit := MeetCheckpoint(HashOf(h), height, newBatch);
      return Some(exit), newBatch;
    }

    /** The header at the next checkpoint's height has the given hash: the batch is written if it is the
        right one, else the stores are rolled back to the checkpoint before. */
    method MeetCheckpoint(hash: Hash, height: nat, batch: seq<(Header, nat)>) returns (exit: Exit)
      requires nextCheckpoint.Some?
      modifies this`nextCheckpoint, this`log, stores
      ensures exit == if hash == old(nextCheckpoint).value.hash then Done else BadCheckpoint
      ensures old(Valid()) && exit == Done ==>
        && View() == old(View()).(file := old(stores.file) + Headers(batch),
             next := NextCheckpoint(p.checkpoints, height))
        && (Continues(old(stores.file), batch) ==> Valid())
      ensures old(Valid()) && exit == BadCheckpoint ==>
        Valid() && View() == RollBack(old(View()), PreviousCheckpoint(p.genesis, p.checkpoints, height).height)
    {
      if hash == nextCheckpoint.value.hash {
        Finish(batch, true, height);
        return Done;
      }
      var cp := FindPreviousHeaderCheckpoint(height);
      var rolled := RollBackToHeight(cp.height);
      return BadCheckpoint;
    }

    /** A header that builds on the back of the list, as part of a message. */
    method ExtendOne(
        msg: seq<MsgHeader>, i: nat, mayReorg: bool, batch: seq<(Header, nat)>, ghost s0: State,
        ghost want: (Exit, State), ghost laid: bool, ghost next: nat)
      returns (stop: Option<Exit>, newBatch: seq<(Header, nat)>)
      requires i < |msg| && headerList != [] && next == i + 1
      modifies this, stores
      ensures old(Kept(s0, msg, mayReorg, want, i, laid, None, batch, Extending)) ==>
        Kept(s0, msg, mayReorg, want, next, laid, stop, newBatch, Extending)
    {
      ghost var v, good := View(), Kept(s0, msg, mayReorg, want, i, laid, None, batch, Extending);
      ghost var h, height := msg[i].header, Back(headerList).height + 1;
      if good {
        ExtensionStep(p, s0, msg, mayReorg, want, i, v, batch, next);
        if laid { LaidContinues(p, v.file, headerList, batch, h, height, batch + [(h, height)]); }
      }
      stop, newBatch := HandleExtension(msg[i], batch);
      assert good && SaneOnList(p, v.list, v.file, msg[i]) ==>
        (stop, View()) == Pushed(p, v, h, height, Headers(newBatch));
      assert good && stop.Some? ==> (stop.value, View()) == want;
    }

    /** What one header of a message leaves: the end of the message, or a state from which the rest of
        it leads to that end. */
    ghost predicate Kept(
        s0: State, msg: seq<MsgHeader>, mayReorg: bool, want: (Exit, State), next: nat, laid: bool,
        stop: Option<Exit>, batch: seq<(Header, nat)>, ph: Phase)
      reads this, stores
    {
      if stop.Some? then
        (stop.value, View()) == want && (laid && IsChain(p.genesis, stores.file) ==> Valid())
      else
        && Valid() && Progress(p, s0, msg, mayReorg, want, next, View(), batch, ph)
        && (laid ==> Laid(headerList, batch))
    }

    /** The body of the loop over a message. stop is the exit taken at this header. */
    method HandleOne(
        msg: seq<MsgHeader>, i: nat, mayReorg: bool, batch: seq<(Header, nat)>, ghost s0: State,
        ghost want: (Exit, State), ghost laid: bool, ghost ph: Phase, ghost n: nat)
      returns (stop: Option<Exit>, newBatch: seq<(Header, nat)>, ghost next: Phase)
      requires i < |msg| <= p.maxMem && n == i + 1
      modifies this, stores
      ensures old(Kept(s0, msg, mayReorg, want, i, laid, None, batch, ph)) ==>
        Kept(s0, msg, mayReorg, want, n, laid, stop, newBatch, next)
    {
      ghost var good := Kept(s0, msg, mayReorg, want, i, laid, None, batch, ph);
      stop, newBatch, next := None, batch, ph;
      if good { ProgressAt(p, s0, msg, mayReorg, want, i, View(), batch, ph); }
      if headerList == [] {
        stop := Some(NoPrevious);
        return;
      }
      var back := headerList[|headerList| - 1];
      if HashOf(back.header) == msg[i].header.prev {
        stop, newBatch := ExtendOne(msg, i, mayReorg, batch, s0, want, laid, n);
        next := Extending;
        return;
      }
      if !mayReorg {
        stop := Some(Ignored);
        return;
      }
      if msg[i].header == back.header || stores.FetchHeader(HashOf(msg[i].header)).Some? {
        return;
      }
      var tried := HandleBranch(msg, i);
      if tried != Done {
        stop := Some(tried);
        return;
      }
      next := Extending;
      if good { SettledPlaced(p, View()); }
      if n < |msg| { assert good ==> FollowsAt(msg, n); }
      assert msg[i..][1..] == msg[n..];
    }

    /** The loop over the headers of a message: known ones are passed over, the first new one
        extends the list or branches off, and from then on every header extends the list. */
    method ProcessHeaders(msg: seq<MsgHeader>, mayReorg: bool) returns (exit: Exit)
      requires Connected(msg) && 0 < |msg| <= p.maxMem
      modifies this, stores
      ensures old(Valid() && headerList != []) ==>
        && (exit, View()) == React(p, old(View()), msg, mayReorg, ZeroHash)
        && (Placed(old(headerList)) && IsChain(p.genesis, stores.file) ==> Valid())
    {
      ghost var good, laid, s0, ph := Valid() && headerList != [], Placed(headerList), View(), Scanning;
      ghost var want := if good then React(p, s0, msg, mayReorg, ZeroHash) else (Failed, s0);
      var batch, i := [], 0;
      while i < |msg|
        invariant i <= |msg|
        invariant good ==> Kept(s0, msg, mayReorg, want, i, laid, None, batch, ph)
      {
        var stop;
        stop, batch, ph := HandleOne(msg, i, mayReorg, batch, s0, want, laid, ph, i + 1);
        if stop.Some? {
          return stop.value;
        }
        i := i + 1;
      }
      if good {
        ProgressEnds(p, s0, msg, mayReorg, want, View(), batch, ph);
        if laid && IsChain(p.genesis, stores.file + Headers(batch)) {
          LaidIsConsecutive(p, stores.file, headerList, batch);
        }
      }
      Finish(batch, false, 0);
      return Done;
    }

    /** The checks of a message before its headers are looked at. */
    method Dispatch(msg: seq<MsgHeader>, isSync: bool, synced: bool, pipelined: Hash) returns (exit: Exit)
      requires |msg| <= p.maxMem
      modifies this, stores
      ensures old(Valid() && headerList != []) ==>
        && (exit, View()) ==
           React(p, old(View()), msg, isSync || synced, if isSync then pipelined else ZeroHash)
        && (Placed(old(headerList)) && IsChain(p.genesis, stores.file) ==> Valid())
    {
      ghost var s, located := View(), if isSync then pipelined else ZeroHash;
      if Valid() && headerList != [] { ReactFirst(p, s, msg, isSync || synced, located); }
      if msg == [] {
        return Empty;
      }
      var connected := AreHeadersConnected(msg);
      if !connected {
        return Unconnected;
      }
      if headerList != [] {
        var tipHash, firstPrev := HashOf(headerList[|headerList| - 1].header), msg[0].header.prev;
        if isSync && tipHash != firstPrev && pipelined != ZeroHash && firstPrev == pipelined {
          return Stale;
        }
      }
      exit := ProcessHeaders(msg, isSync || synced);
    }

    /** handleHeadersMsg. isSync: the peer is the sync peer; synced: block headers are synced;
        pipelined: the peer's pipelinedLocator. From every valid state, whatever the list holds, the
        handler does what React says, and the store stays a chain exactly if the message does not
        graft; from one whose list agrees with the store it does what Handle says. */
    method HandleHeaders(msg: seq<MsgHeader>, isSync: bool, synced: bool, pipelined: Hash) returns (exit: Exit)
      requires |msg| <= p.maxMem
      modifies this, stores
      ensures old(Valid() && headerList != []) ==>
        var mayReorg, located := isSync || synced, if isSync then pipelined else ZeroHash;
        && (exit, View()) == React(p, old(View()), msg, mayReorg, located)
        && (IsChain(p.genesis, stores.file) <==> !Grafts(p, old(View()), msg, mayReorg, located))
        && Accounted(p, old(View()), msg, mayReorg, located, exit, View())
        && (Placed(old(headerList)) ==>
              && Placed(headerList)
              && (Valid() <==> !Grafts(p, old(View()), msg, mayReorg, located)))
      ensures old(Ready()) ==>
        && Valid()
        && (exit, View()) ==
           Handle(p, old(View()), msg, isSync || synced, if isSync then pipelined else ZeroHash)
    {
      ghost var s, mayReorg, located := View(), isSync || synced, if isSync then pipelined else ZeroHash;
      ghost var good, ready := Valid() && headerList != [], Ready();
      exit := Dispatch(msg, isSync, synced, pipelined);
      if good { HeadersReact(p, s, msg, mayReorg, located); }
      if ready { ReadyReacts(p, s, msg, mayReorg, located); }
    }
  }
}
