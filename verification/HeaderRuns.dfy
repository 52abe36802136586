/** What headers messages do to checkpoints, and safety over every run of messages. */
module HeaderRuns {
  import opened Chain
  import opened HeaderList
  import opened HeaderRules
  import opened HeaderSafety

  // ---------- checkpoints ----------

  /** Every checkpointed header strictly below the tip survives every message. */
  lemma {:induction false} HandleKeepsCheckpoints(
      p: Params, s: State, msg: seq<MsgHeader>, mayReorg: bool, pipelined: Hash, cp: Checkpoint)
    requires ValidParams(p) && ChainOk(p, s) && Agree(s.file, s.list)
    requires cp in p.checkpoints && cp.height < |s.file| - 1
    ensures var (e, s') := Handle(p, s, msg, mayReorg, pipelined);
      cp.height < |s'.file| && s'.file[cp.height] == s.file[cp.height]
  {
    var k := Known(s.file, msg);
    if msg != [] && Connected(msg) && k < |msg| {
      Attachment(p, s, msg);
      var parent := msg[k].header.prev;
      if parent.HashOf? && parent.header in s.file {
        var back := Depth(parent.header);
        if back + 1 < |s.file| {
          ReorgKeepsBelow(p, s, msg[k..], back, cp);
        } else {
          ExtendKeepsBelow(p, s, [], msg[k..], cp);
        }
      }
    }
  }

  lemma {:induction false} ReorgKeepsBelow(p: Params, s: State, hs: seq<MsgHeader>, back: nat, cp: Checkpoint)
    requires ValidParams(p) && hs != [] && back + 1 < |s.file|
    requires cp in p.checkpoints && cp.height < |s.file| - 1
    ensures var (e, s') := Reorg(p, s, hs, back);
      cp.height < |s'.file| && s'.file[cp.height] == s.file[cp.height]
  {
    if cp.height <= back {
      ExtendKeepsBelow(p, Switch(s, s.file[..back + 1], hs[0].header), [], hs[1..], cp);
    }
  }

  lemma {:induction false} ExtendKeepsBelow(p: Params, s: State, taken: seq<Header>, hs: seq<MsgHeader>, cp: Checkpoint)
    requires ValidParams(p) && cp in p.checkpoints && cp.height < |s.file|
    ensures var (e, s') := Extend(p, s, taken, hs);
      cp.height < |s'.file| && s'.file[cp.height] == s.file[cp.height]
    decreases |hs|
  {
    if hs != [] && !AtCheckpoint(s.next, |s.file| + |taken|) {
      var h := hs[0].header;
      ExtendKeepsBelow(p, s.(list := Push(p, s.list, |s.file| + |taken|, h)), taken + [h], hs[1..], cp);
    }
  }

  /** Extending appends to the stored chain or rolls back from it. */
  lemma {:induction false} ExtendMoves(p: Params, s: State, taken: seq<Header>, hs: seq<MsgHeader>)
    ensures var s' := Extend(p, s, taken, hs).1;
      s.file <= s'.file || s'.file <= s.file
    decreases |hs|
  {
    if hs != [] && !AtCheckpoint(s.next, |s.file| + |taken|) {
      var h := hs[0].header;
      ExtendMoves(p, s.(list := Push(p, s.list, |s.file| + |taken|, h)), taken + [h], hs[1..]);
    }
  }

  /** An accepted branch drops every stored header above the fork, the tip included, also if
      it contradicts the next checkpoint later and is rolled back. */
  lemma {:induction false} ReorgDropsSuffix(p: Params, s: State, hs: seq<MsgHeader>, back: nat, height: nat)
    requires ValidParams(p) && ChainOk(p, s) && Agree(s.file, s.list) && Connected(hs) && hs != []
    requires back + 1 < |s.file| && hs[0].header.prev == HashOf(s.file[back])
    requires hs[0].header !in s.file && back < height < |s.file|
    ensures Judge(p, s, hs, back) == Done ==> s.file[height] !in Reorg(p, s, hs, back).1.file
  {
    var s' := Reorg(p, s, hs, back).1;
    if Judge(p, s, hs, back) == Done && s.file[height] in s'.file {
      ReorgSafe(p, s, hs, back);
      HeightByDepth(p, s'.file, s.file[height]);
      DepthIsHeight(p.genesis, s.file, height);
      ExtendMoves(p, Switch(s, s.file[..back + 1], hs[0].header), [], hs[1..]);
      assert s'.file[back + 1] == hs[0].header;
      SameAncestor(p, s.file, s'.file, height, back + 1);
      assert false;
    }
  }

  /** A stored header at a checkpoint's height survives a message in every case but one: it
      is the tip, and the message is a branch off a header below it that is accepted. */
  lemma {:induction false} CheckpointSurvives(
      p: Params, s: State, msg: seq<MsgHeader>, mayReorg: bool, pipelined: Hash, cp: Checkpoint)
    requires ValidParams(p) && ChainOk(p, s) && Agree(s.file, s.list)
    requires cp in p.checkpoints && cp.height < |s.file|
    ensures s.file[cp.height] in Handle(p, s, msg, mayReorg, pipelined).1.file <==>
      !(cp.height == |s.file| - 1 && SwitchesBranch(p, s, msg, mayReorg, pipelined))
  {
    var s' := Handle(p, s, msg, mayReorg, pipelined).1;
    HandleCases(p, s, msg, mayReorg, pipelined);
    if cp.height < |s.file| - 1 {
      HandleKeepsCheckpoints(p, s, msg, mayReorg, pipelined, cp);
      assert s.file[cp.height] == s'.file[cp.height];
    } else if Attaches(s, msg, mayReorg, pipelined) {
      var hs, back := msg[Known(s.file, msg)..], ForkHeight(s, msg);
      Attachment(p, s, msg);
      if back + 1 == |s.file| {
        ExtendKeepsBelow(p, s, [], hs, cp);
        assert s.file[cp.height] == s'.file[cp.height];
      } else {
        ReorgDropsSuffix(p, s, hs, back, cp.height);
      }
    }
  }

  /** Chains that share a header share everything below it. */
  lemma {:induction false} SameAncestor(p: Params, a: seq<Header>, b: seq<Header>, height: nat, low: nat)
    requires IsChain(p.genesis, a) && IsChain(p.genesis, b)
    requires low <= height < |a| && height < |b| && a[height] == b[height]
    ensures a[low] == b[low]
    decreases height - low
  {
    if low < height {
      assert LinkAt(a, height) && LinkAt(b, height);
      SameAncestor(p, a, b, height - 1, low);
    }
  }

  /** A checkpoint at the tip itself is not protected: with stored chain g, a and a
      checkpoint at a, a heavier sane header b on g is accepted, the checkpointed header is
      replaced, and no later message checks that height again. */
  lemma {:induction false} CheckpointAtTipIsReplaced(p: Params, s: State, a: Header, b: MsgHeader)
    requires ValidParams(p) && s.file == [p.genesis, a] && a.prev == b.header.prev == HashOf(p.genesis)
    requires a != b.header && SaneOn(p, [p.genesis], b)
    requires p.checkpoints == [Checkpoint(1, HashOf(a))] && s.next == NextCheckpoint(p.checkpoints, 1)
    requires 2 * p.work(a.bits) <= p.work(b.header.bits) && 0 < p.work(a.bits)
    ensures s.next == None
    ensures var (e, s') := Handle(p, s, [b], true, ZeroHash);
      e == Done && s'.file == [p.genesis, b.header] && HashOf(s'.file[1]) != p.checkpoints[0].hash && s'.next == None
  {
    var g, cps, hs := p.genesis, p.checkpoints, [b];
    assert NextCheckpoint(cps[1..], 1) == None;
    assert b.header !in s.file;
    assert Known(s.file, hs) == 0 && hs[0..] == hs && Connected(hs);
    assert Depth(g) == 0;
    assert PreviousCheckpoint(g, cps, 1).height == 0 by {
      assert PreviousCheckpoint(g, cps[..0], 1).height == 0;
    }
    assert s.file[..1] == [g] && s.file[1..] == [a] && Plain(hs) == [b.header];
    assert hs[1..] == [] && AllSane(p, [g], hs);
    assert WorkSum(p.work, [a]) == p.work(a.bits) by { assert [a][1..] == []; }
    assert WorkSum(p.work, [b.header]) == p.work(b.header.bits) by { assert [b.header][1..] == []; }
    assert Handle(p, s, hs, true, ZeroHash) == Reorg(p, s, hs, 0);
    assert Reorg(p, s, hs, 0) == Extend(p, Switch(s, [g], b.header), [], []);
    assert [g] + [b.header] + [] == [g, b.header];
  }

  /** The next checkpoint is above the tip. */
  predicate NextAbove(file: seq<Header>, next: Option<Checkpoint>) {
    next.Some? ==> |file| <= next.value.height
  }

  lemma {:induction false} ExtendKeepsNextAbove(p: Params, s: State, taken: seq<Header>, hs: seq<MsgHeader>)
    requires NextAbove(s.file + taken, s.next)
    ensures var s' := Extend(p, s, taken, hs).1;
      NextAbove(s'.file, s'.next)
    decreases |hs|
  {
    if hs != [] && !AtCheckpoint(s.next, |s.file| + |taken|) {
      var h := hs[0].header;
      ExtendKeepsNextAbove(p, s.(list := Push(p, s.list, |s.file| + |taken|, h)), taken + [h], hs[1..]);
    }
  }

  lemma {:induction false} ReorgKeepsNextAbove(p: Params, s: State, hs: seq<MsgHeader>, back: nat)
    requires 0 < |hs| && back + 1 < |s.file| && NextAbove(s.file, s.next)
    ensures var s' := Reorg(p, s, hs, back).1;
      NextAbove(s'.file, s'.next) && !AtCheckpoint(s.next, back + 1)
  {
    ExtendKeepsNextAbove(p, Switch(s, s.file[..back + 1], hs[0].header), [], hs[1..]);
  }

  /** Every message keeps the next checkpoint above the tip. So the first header of a branch,
      which the client does not compare with the next checkpoint, is never at its height. */
  lemma {:induction false} HandleKeepsNextAbove(
      p: Params, s: State, msg: seq<MsgHeader>, mayReorg: bool, pipelined: Hash)
    requires 0 < |s.file| && NextAbove(s.file, s.next)
    ensures var s' := Handle(p, s, msg, mayReorg, pipelined).1;
      NextAbove(s'.file, s'.next)
    ensures SwitchesBranch(p, s, msg, mayReorg, pipelined) ==> !AtCheckpoint(s.next, ForkHeight(s, msg) + 1)
  {
    HandleCases(p, s, msg, mayReorg, pipelined);
    if Attaches(s, msg, mayReorg, pipelined) {
      var hs := msg[Known(s.file, msg)..];
      if ForkHeight(s, msg) + 1 < |s.file| {
        ReorgKeepsNextAbove(p, s, hs, ForkHeight(s, msg));
      } else {
        ExtendKeepsNextAbove(p, s, [], hs);
      }
    }
  }

  // ---------- stopping short ----------

  /** Two new headers on the tip of which the second fails its check: the store stays, the
      first header stays at the back of the list, and the two disagree. */
  lemma {:induction false} SecondHeaderFails(p: Params, s: State, a: MsgHeader, b: MsgHeader, mayReorg: bool)
    requires ValidParams(p) && ChainOk(p, s) && Agree(s.file, s.list) && !AtCheckpoint(s.next, |s.file|)
    requires a.header.prev == HashOf(Last(s.file)) && b.header.prev == HashOf(a.header)
    requires SaneOn(p, s.file, a) && !SaneOn(p, s.file + [a.header], b)
    ensures var (e, s') := Handle(p, s, [a, b], mayReorg, ZeroHash);
      && s'.list != [] && e == Insane(1) && s' == s.(list := Push(p, s.list, |s.file|, a.header))
      && s'.list[|s'.list| - 1].header == a.header && !Agree(s'.file, s'.list)
  {
    var hs, c := [a, b], s.file + [a.header];
    NewOnTip(p, s.file, a.header);
    assert Known(s.file, hs) == 0 && hs[0..] == hs && Connected(hs);
    DepthIsHeight(p.genesis, s.file, |s.file| - 1);
    assert Attaches(s, hs, mayReorg, ZeroHash) && ForkHeight(s, hs) == |s.file| - 1;
    HandleCases(p, s, hs, mayReorg, ZeroHash);
    assert s.file + [] == s.file && [] + [a.header] == [a.header] && hs[1..] == [b];
    assert Extend(p, s, [], hs) == Extend(p, s.(list := Push(p, s.list, |s.file|, a.header)), [a.header], [b]);
    PushAgrees(p, s.file, s.list, a.header);
    AheadDisagrees(c, s.file, Push(p, s.list, |s.file|, a.header));
  }


  /** After such a message, one with a header c on the first header a is grafted onto the store if c
      passes on the list, alone or after a itself: the store then has c after a header that c does
      not build on. */
  lemma {:induction false} GraftAfterFailure(p: Params, s: State, a: Header, c: MsgHeader, mayReorg: bool)
    requires ValidParams(p) && ChainOk(p, s) && s.list != [] && Back(s.list).header == a
    requires a.prev == HashOf(Last(s.file)) && c.header.prev == HashOf(a)
    requires SaneOnList(p, s.list, s.file, c) && !AtCheckpoint(s.next, Back(s.list).height + 1)
    ensures var (e, s') := React(p, s, [c], mayReorg, ZeroHash);
      && Grafts(p, s, [c], mayReorg, ZeroHash)
      && e == Done && s'.file == s.file + [c.header] && !IsChain(p.genesis, s'.file)
    ensures forall cert :: Grafts(p, s, [MsgHeader(a, cert), c], true, ZeroHash)
  {
    var hs, list := [c], Push(p, s.list, Back(s.list).height + 1, c.header);
    NewOnTip(p, s.file, a);
    PushBackIs(p, s.list, Back(s.list).height + 1, c.header);
    assert hs[1..] == [] && hs[0..] == hs && [] + [c.header] == [c.header];
    assert TakesAll(p, list, s.file, s.next, []);
    assert TakesAll(p, s.list, s.file, s.next, hs);
    assert Passed(s.file, a, hs) == 0 && Connected(hs);
    ExtendListFirst(p, s, [], hs);
    ReactChain(p, s, hs, mayReorg, ZeroHash);
    forall cert ensures Grafts(p, s, [MsgHeader(a, cert), c], true, ZeroHash) {
      var two := [MsgHeader(a, cert), c];
      assert two[1..] == hs && Connected(two);
      assert Passed(s.file, a, two) == 1;
    }
  }

  // ---------- runs ----------

  datatype Event =
    | HeadersMsg(msg: seq<MsgHeader>, mayReorg: bool, pipelined: Hash)
    | SyncPeerDone

  /** handleDonePeerMsg for the sync peer: the list is reset to the store's tip. */
  function Reset(s: State): State
    requires 0 < |s.file|
  {
    s.(list := [Node(|s.file| - 1, Last(s.file))])
  }

  /** The store and the list are not empty. */
  predicate Live(p: Params, s: State) {
    s.file != [] && s.list != [] && 2 <= p.maxMem
  }

  ghost function Step(p: Params, s: State, ev: Event): (s': State)
    requires Live(p, s)
    ensures Live(p, s')
  {
    match ev
    case HeadersMsg(msg, mayReorg, pipelined) => React(p, s, msg, mayReorg, pipelined).1
    case SyncPeerDone => Reset(s)
  }

  ghost function Run(p: Params, s: State, evs: seq<Event>): State
    requires Live(p, s)
    decreases |evs|
  {
    if evs == [] then s else Run(p, Step(p, s, evs[0]), evs[1..])
  }

  ghost predicate GraftsAt(p: Params, s: State, ev: Event)
    requires Live(p, s)
  {
    ev.HeadersMsg? && Grafts(p, s, ev.msg, ev.mayReorg, ev.pipelined)
  }

  /** No message of the run grafts onto the state that it meets. */
  ghost predicate NeverGrafts(p: Params, s: State, evs: seq<Event>)
    requires Live(p, s)
    decreases |evs|
  {
    evs == [] || (!GraftsAt(p, s, evs[0]) && NeverGrafts(p, Step(p, s, evs[0]), evs[1..]))
  }

  /** The store is a hash-linked chain from genesis before, throughout and after the run. */
  ghost predicate AlwaysChain(p: Params, s: State, evs: seq<Event>)
    requires Live(p, s)
    decreases |evs|
  {
    IsChain(p.genesis, s.file) && (evs == [] || AlwaysChain(p, Step(p, s, evs[0]), evs[1..]))
  }

  /** Over every run of headers messages, from any peers and whether the list agrees with the store
      or not, and of sync-peer disconnects: the store stays a chain exactly if no message grafts, and
      then filter headers never lead it. */
  lemma {:induction false} RunSafe(p: Params, s: State, evs: seq<Event>)
    requires ValidParams(p) && ChainOk(p, s) && s.list != []
    ensures AlwaysChain(p, s, evs) <==> NeverGrafts(p, s, evs)
    ensures NeverGrafts(p, s, evs) ==> ChainOk(p, Run(p, s, evs))
    decreases |evs|
  {
    if evs != [] {
      var s1 := Step(p, s, evs[0]);
      if evs[0].HeadersMsg? {
        ReactChain(p, s, evs[0].msg, evs[0].mayReorg, evs[0].pipelined);
      }
      if GraftsAt(p, s, evs[0]) {
        assert !AlwaysChain(p, s1, evs[1..]);
      } else {
        RunSafe(p, s1, evs[1..]);
      }
    }
  }

  // ---------- the next checkpoint on any list ----------

  /** The next checkpoint is above the back of the list. */
  predicate NextAhead(list: seq<Node>, next: Option<Checkpoint>)
    requires list != []
  {
    next.Some? ==> Back(list).height < next.value.height
  }

  lemma {:induction false} TakenKeepsNextAhead(p: Params, s: State, batch: seq<Header>, hs: seq<MsgHeader>)
    requires ValidParams(p) && s.list != [] && NextAhead(s.list, s.next) && TakesAll(p, s.list, s.file, s.next, hs)
    ensures var s' := ExtendList(p, s, batch, hs).1;
      NextAhead(s'.list, s'.next)
    decreases |hs|
  {
    if hs == [] {
    } else {
      var h, height := hs[0].header, Back(s.list).height + 1;
      ExtendListFirst(p, s, batch, hs);
      PushBackIs(p, s.list, height, h);
      if !AtCheckpoint(s.next, height) {
        TakenKeepsNextAhead(p, s.(list := Push(p, s.list, height, h)), batch + [h], hs[1..]);
      }
    }
  }

  /** A checkpoint the list has passed is never met again. */
  lemma {:induction false} PassedCheckpointStays(p: Params, s: State, batch: seq<Header>, hs: seq<MsgHeader>)
    requires ValidParams(p) && s.list != [] && s.next.Some? && s.next.value.height <= Back(s.list).height
    ensures var s' := ExtendList(p, s, batch, hs).1;
      s'.next == s.next && s.file <= s'.file
    decreases |hs|
  {
    if hs == [] {
    } else {
      var h, height := hs[0].header, Back(s.list).height + 1;
      ExtendListFirst(p, s, batch, hs);
      PushBackIs(p, s.list, height, h);
      if SaneOnList(p, s.list, s.file, hs[0]) {
        PassedCheckpointStays(p, s.(list := Push(p, s.list, height, h)), batch + [h], hs[1..]);
      }
    }
  }

  /** Extending a list that ends in the tip of the store keeps the next checkpoint above the tip. */
  lemma {:induction false} RootedKeepsNextAbove(p: Params, s: State, hs: seq<MsgHeader>)
    requires ValidParams(p) && ChainOk(p, s) && Placed(s.list) && Back(s.list).header == Last(s.file)
    requires NextAbove(s.file, s.next) && Connected(hs)
    requires hs != [] ==> hs[0].header.prev == HashOf(Last(s.file))
    ensures var s' := ExtendList(p, s, [], hs).1;
      NextAbove(s'.file, s'.next)
  {
    var s' := ExtendList(p, s, [], hs).1;
    if hs == [] {
      assert s.file + [] == s.file;
    } else if TakesAll(p, s.list, s.file, s.next, hs) {
      DepthIsHeight(p.genesis, s.file, |s.file| - 1);
      TakenKeepsNextAhead(p, s, [], hs);
      var written := TakenIsWritten(p, s, Last(s.file), [], hs);
      ExtendListChain(p, s, hs);
      ExtendListPlaced(p, s, [], hs);
      assert Back(s'.list).header == Last(s'.file);
      DepthIsHeight(p.genesis, s'.file, |s'.file| - 1);
    } else {
      RefusedIsDropped(p, s, [], hs);
    }
  }

  /** The message is an accepted branch off the tip of the store itself, which is not the back of the
      list, and its first header is at the height of the next checkpoint. */
  ghost predicate Skips(p: Params, s: State, msg: seq<MsgHeader>, mayReorg: bool, pipelined: Hash)
    requires Live(p, s)
  {
    var hs := NewHeaders(s, msg);
    && Reaches(s, msg, mayReorg, pipelined)
    && hs[0].header.prev != HashOf(Back(s.list).header) && SkipsBranch(p, s, hs)
  }

  /** The branch is off the tip of the store, at the height of the next checkpoint, and accepted. */
  predicate SkipsBranch(p: Params, s: State, hs: seq<MsgHeader>)
    requires Live(p, s) && hs != []
  {
    && hs[0].header.prev == HashOf(Last(s.file)) && AtCheckpoint(s.next, |s.file|)
    && JudgeList(p, s, hs, |s.file| - 1) == Done
  }

  /** From any list, a message that does not graft keeps the next checkpoint above the tip exactly if
      it does not put a branch header at its height, where it is not compared. */
  lemma {:induction false} ReactKeepsNextAbove(
      p: Params, s: State, msg: seq<MsgHeader>, mayReorg: bool, pipelined: Hash)
    requires ValidParams(p) && ChainOk(p, s) && Placed(s.list) && NextAbove(s.file, s.next)
    requires !Grafts(p, s, msg, mayReorg, pipelined)
    ensures var s' := React(p, s, msg, mayReorg, pipelined).1;
      NextAbove(s'.file, s'.next) <==> !Skips(p, s, msg, mayReorg, pipelined)
  {
    var b, hs := Back(s.list).header, NewHeaders(s, msg);
    ReactCases(p, s, msg, mayReorg, pipelined);
    if Reaches(s, msg, mayReorg, pipelined) {
      if hs[0].header.prev != HashOf(b) {
        BranchKeepsNextAbove(p, s, hs);
      } else if b == Last(s.file) {
        RootedKeepsNextAbove(p, s, hs);
      } else {
        RefusedIsDropped(p, s, [], hs);
      }
    }
  }

  lemma {:induction false} BranchKeepsNextAbove(p: Params, s: State, hs: seq<MsgHeader>)
    requires ValidParams(p) && ChainOk(p, s) && s.list != [] && NextAbove(s.file, s.next)
    requires hs != [] && Connected(hs)
    ensures var s' := BranchOff(p, s, hs).1;
      NextAbove(s'.file, s'.next) <==> !SkipsBranch(p, s, hs)
  {
    var parent := hs[0].header.prev;
    BranchOffCases(p, s, hs);
    if parent.HashOf? && parent.header in s.file {
      var fork := Depth(parent.header);
      ForkAtTip(p, s.file, fork);
      if JudgeList(p, s, hs, fork) == Done {
        SwitchNextAbove(p, s, hs, fork);
      }
    }
  }

  lemma {:induction false} ForkAtTip(p: Params, file: seq<Header>, fork: nat)
    requires ValidParams(p) && IsChain(p.genesis, file) && fork < |file|
    ensures file[fork] == Last(file) <==> fork == |file| - 1
  {
    DepthIsHeight(p.genesis, file, |file| - 1);
    DepthIsHeight(p.genesis, file, fork);
  }

  lemma {:induction false} SwitchNextAbove(p: Params, s: State, hs: seq<MsgHeader>, fork: nat)
    requires ValidParams(p) && ChainOk(p, s) && s.list != [] && NextAbove(s.file, s.next)
    requires hs != [] && Connected(hs) && fork < |s.file| && hs[0].header.prev == HashOf(s.file[fork])
    ensures var s' := ExtendList(p, Switch(s, s.file[..fork + 1], hs[0].header), [], hs[1..]).1;
      NextAbove(s'.file, s'.next) <==> !AtCheckpoint(s.next, fork + 1)
  {
    var v, rest := Switch(s, s.file[..fork + 1], hs[0].header), hs[1..];
    SwitchSafe(p, s, fork, hs[0].header);
    DepthIsHeight(p.genesis, s.file, fork);
    ConnectedTail(hs, 1);
    if AtCheckpoint(s.next, fork + 1) {
      PassedCheckpointStays(p, v, [], rest);
    } else {
      RootedKeepsNextAbove(p, v, rest);
    }
  }

  /** A checkpoint is skipped: with only genesis stored and the next checkpoint one above it, a header a
      that contradicts the checkpoint stays at the back of the list, and a heavier header c on genesis
      is then accepted as a branch, whatever its hash. */
  lemma {:induction false} CheckpointIsSkipped(p: Params, s: State, cp: Checkpoint, a: MsgHeader, c: MsgHeader)
    requires ValidParams(p) && s.file == [p.genesis] && |s.filters| == 1 && s.list == [Node(0, p.genesis)]
    requires p.checkpoints == [cp] && s.next == Some(cp) && cp.height == 1
    requires a.header.prev == c.header.prev == HashOf(p.genesis) && a.header != c.header
    requires HashOf(a.header) != cp.hash && SaneOnList(p, s.list, s.file, a) && AllSane(p, s.file, [c])
    requires 2 * p.work(a.header.bits) <= p.work(c.header.bits) && 0 < p.work(a.header.bits)
    ensures var (e1, s1) := React(p, s, [a], true, ZeroHash);
      var (e2, s2) := React(p, s1, [c], true, ZeroHash);
      && e1 == BadCheckpoint && s1.file == s.file && Skips(p, s1, [c], true, ZeroHash)
      && e2 == Done && s2.file == [p.genesis, c.header] && s2.next == Some(cp)
  {
    var s1 := WrongCheckpoint(p, s, cp, a);
    BranchPastCheckpoint(p, s1, cp, a.header, c);
  }

  lemma {:induction false} WrongCheckpoint(p: Params, s: State, cp: Checkpoint, a: MsgHeader) returns (s1: State)
    requires ValidParams(p) && s.file == [p.genesis] && |s.filters| == 1 && s.list == [Node(0, p.genesis)]
    requires p.checkpoints == [cp] && s.next == Some(cp) && cp.height == 1
    requires a.header.prev == HashOf(p.genesis) && HashOf(a.header) != cp.hash && SaneOnList(p, s.list, s.file, a)
    ensures s1 == s.(list := [Node(0, p.genesis), Node(1, a.header)])
    ensures React(p, s, [a], true, ZeroHash) == (BadCheckpoint, s1)
  {
    s1 := s.(list := [Node(0, p.genesis), Node(1, a.header)]);
    var hs := [a];
    assert hs[0..] == hs && Connected(hs) && Passed(s.file, p.genesis, hs) == 0;
    assert p.checkpoints[..0] == [] && PreviousCheckpoint(p.genesis, p.checkpoints, 1).height == 0;
    ExtendListFirst(p, s, [], hs);
    assert Push(p, s.list, 1, a.header) == s1.list;
    assert RollBack(s1, 0) == s1;
  }

  lemma {:induction false} BranchPastCheckpoint(p: Params, s: State, cp: Checkpoint, a: Header, c: MsgHeader)
    requires ValidParams(p) && s.file == [p.genesis] && s.list == [Node(0, p.genesis), Node(1, a)]
    requires p.checkpoints == [cp] && s.next == Some(cp) && cp.height == 1
    requires a.prev == c.header.prev == HashOf(p.genesis) && a != c.header && AllSane(p, s.file, [c])
    requires 2 * p.work(a.bits) <= p.work(c.header.bits) && 0 < p.work(a.bits)
    ensures var (e, s') := React(p, s, [c], true, ZeroHash);
      Skips(p, s, [c], true, ZeroHash) && e == Done && s'.file == [p.genesis, c.header] && s'.next == Some(cp)
  {
    var hs, v := [c], Switch(s, [p.genesis], c.header);
    assert hs[0..] == hs && Connected(hs) && Passed(s.file, a, hs) == 0;
    assert p.checkpoints[..0] == [] && PreviousCheckpoint(p.genesis, p.checkpoints, 1).height == 0;
    assert s.file[..1] == [p.genesis] && hs[1..] == [] && Plain(hs) == [c.header] && Plain(hs)[1..] == [];
    assert KnownWalk(p.work, s.list, s.file, 0, a, 0, 0, p.work(a.bits)) == Some(p.work(a.bits));
    assert JudgeList(p, s, hs, 0) == Done;
    assert ExtendList(p, v, [], []) == (Done, v.(file := v.file + []));
    assert v.file + [] == [p.genesis, c.header];
  }

  // ---------- runs that keep list and store in agreement ----------

  ghost predicate AbandonsAt(p: Params, s: State, ev: Event)
    requires Live(p, s)
  {
    ev.HeadersMsg? && Abandons(p, s, ev.msg, ev.mayReorg, ev.pipelined)
  }

  /** A message whose headers stop short is followed by the leaving of the sync peer. */
  ghost predicate Disciplined(p: Params, s: State, evs: seq<Event>)
    requires Live(p, s)
    decreases |evs|
  {
    evs == [] ||
    (&& (AbandonsAt(p, s, evs[0]) && 1 < |evs| ==> evs[1].SyncPeerDone?)
     && Disciplined(p, Step(p, s, evs[0]), evs[1..]))
  }

  /** The messages fit the list. */
  ghost predicate Fits(p: Params, evs: seq<Event>) {
    forall ev :: ev in evs && ev.HeadersMsg? ==> |ev.msg| <= p.maxMem
  }

  /** A disciplined run never grafts; the next checkpoint stays above the tip, and the list agrees
      with the store at the end exactly if the last event is not a message that stops short. */
  lemma {:induction false} DisciplinedSafe(p: Params, s: State, evs: seq<Event>)
    requires ValidParams(p) && ChainOk(p, s) && NextAbove(s.file, s.next) && s.list != []
    requires Disciplined(p, s, evs) && Fits(p, evs)
    requires Agree(s.file, s.list) || (evs != [] && evs[0].SyncPeerDone?)
    ensures NeverGrafts(p, s, evs)
    ensures var s' := Run(p, s, evs);
      && ChainOk(p, s') && NextAbove(s'.file, s'.next)
      && (Agree(s'.file, s'.list) <==> !EndsShort(p, s, evs))
    decreases |evs|
  {
    if evs != [] {
      var s1, rest := Step(p, s, evs[0]), evs[1..];
      assert evs[0] in evs;
      StepSafe(p, s, evs[0]);
      if rest == [] {
        assert Run(p, s1, rest) == s1;
      } else {
        assert Fits(p, rest);
        DisciplinedSafe(p, s1, rest);
      }
    }
  }

  /** The last message of the run stops short. */
  ghost predicate EndsShort(p: Params, s: State, evs: seq<Event>)
    requires Live(p, s)
    decreases |evs|
  {
    evs != [] && if |evs| == 1 then AbandonsAt(p, s, evs[0]) else EndsShort(p, Step(p, s, evs[0]), evs[1..])
  }

  /** Resetting always restores agreement, and a message on an agreeing list does not graft and loses
      agreement exactly if it stops short. */
  lemma {:induction false} StepSafe(p: Params, s: State, ev: Event)
    requires ValidParams(p) && ChainOk(p, s) && NextAbove(s.file, s.next) && s.list != []
    requires ev.HeadersMsg? ==> Agree(s.file, s.list) && |ev.msg| <= p.maxMem
    ensures !GraftsAt(p, s, ev)
    ensures var s' := Step(p, s, ev);
      && ChainOk(p, s') && NextAbove(s'.file, s'.next)
      && (Agree(s'.file, s'.list) <==> !AbandonsAt(p, s, ev))
  {
    if ev.HeadersMsg? {
      ReactIsHandle(p, s, ev.msg, ev.mayReorg, ev.pipelined);
      HandleSafe(p, s, ev.msg, ev.mayReorg, ev.pipelined);
      HandleKeepsNextAbove(p, s, ev.msg, ev.mayReorg, ev.pipelined);
    }
  }
}
