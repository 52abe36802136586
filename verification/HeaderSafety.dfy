/** Safety of the header chain over every headers message and every run of messages. */
module HeaderSafety {
  import opened Chain
  import opened HeaderRules

  // ---------- what a message contains ----------

  lemma {:induction false} KnownRun(file: seq<Header>, msg: seq<MsgHeader>)
    ensures forall i :: 0 <= i < Known(file, msg) ==> msg[i].header in file
    ensures Known(file, msg) < |msg| ==> msg[Known(file, msg)].header !in file
  {
    if msg != [] && msg[0].header in file {
      KnownRun(file, msg[1..]);
      forall i | 0 <= i < Known(file, msg) ensures msg[i].header in file {
        if i != 0 { assert msg[i] == msg[1..][i - 1]; }
      }
    }
  }

  lemma {:induction false} ConnectedTail(msg: seq<MsgHeader>, k: nat)
    requires k <= |msg| && Connected(msg)
    ensures Connected(msg[k..])
    ensures 0 < k < |msg| ==> msg[k].header.prev == HashOf(msg[k - 1].header)
  {
    var t := msg[k..];
    forall i | 0 < i < |t| ensures FollowsAt(t, i) {
      assert FollowsAt(msg, k + i);
    }
    if 0 < k < |msg| { assert FollowsAt(msg, k); }
  }

  /** A stored header sits at the height given by its depth. */
  lemma {:induction false} HeightByDepth(p: Params, file: seq<Header>, h: Header)
    requires ValidParams(p) && IsChain(p.genesis, file) && h in file
    ensures Depth(h) < |file| && file[Depth(h)] == h
  {
    var i :| 0 <= i < |file| && file[i] == h;
    DepthIsHeight(p.genesis, file, i);
  }

  // ---------- ancestor lookups ----------

  lemma {:induction false} FindInListAt(list: seq<Node>, low: nat, height: int)
    requires forall i :: 0 <= i < |list| ==> list[i].height == low + i
    ensures low <= height < low + |list| ==> FindInList(list, height) == Some(list[height - low].header)
    ensures !(low <= height < low + |list|) ==> FindInList(list, height) == None
  {
    if list != [] && list[|list| - 1].height != height {
      FindInListAt(list[..|list| - 1], low, height);
    }
  }

  /** Looking an ancestor up in the list and then in the store by height gives the header
      reached by following PrevBlock that many times, from every header of the chain: the
      parent of the header that is checked, and every ancestor an earlier lookup returned.
      The list may hold a branch whose upper part is in no store. */
  lemma {:induction false} LookupFollowsLinks(
      p: Params, list: seq<Node>, file: seq<Header>, c: seq<Header>, i: nat, distance: nat)
    requires ValidParams(p) && IsChain(p.genesis, c) && Covers(list, file, c) && i < |c|
    ensures RelativeAncestor(list, file, i, distance) == Ancestor(c[i], distance)
  {
    FindInListAt(list, |c| - |list|, i - distance);
    if distance <= i {
      AncestorInChain(c, i, distance);
    } else {
      AncestorBelowGenesis(p.genesis, c, i, distance);
    }
  }

  /** So header checks see exactly the ancestry of the parent. */
  lemma {:induction false} ViewIsAncestry(p: Params, list: seq<Node>, file: seq<Header>, c: seq<Header>)
    requires ValidParams(p) && IsChain(p.genesis, c) && Covers(list, file, c)
    ensures AncestorView(list, file, |c| - 1, Last(c)) == AllKnown(c)
  {
    var v := AncestorView(list, file, |c| - 1, Last(c));
    forall i | 0 <= i < |c| - 1 ensures v[i] == Some(c[i]) {
      LookupFollowsLinks(p, list, file, c, |c| - 1, |c| - 1 - i);
      AncestorInChain(c, |c| - 1, |c| - 1 - i);
    }
  }

  /** Pushing the next header of a chain keeps the list a suffix of the chain. */
  lemma {:induction false} PushAgrees(p: Params, c: seq<Header>, list: seq<Node>, h: Header)
    requires ValidParams(p) && Agree(c, list)
    ensures Agree(c + [h], Push(p, list, |c|, h))
  {
    var all, list' := list + [Node(|c|, h)], Push(p, list, |c|, h);
    var drop := |all| - |list'|;
    forall i | 0 <= i < |list'| ensures list'[i] == Node(|c| + 1 - |list'| + i, (c + [h])[|c| + 1 - |list'| + i]) {
      assert list'[i] == all[drop + i];
    }
  }

  /** A list agrees with one length of the store only. */
  lemma {:induction false} AheadDisagrees(c: seq<Header>, file: seq<Header>, list: seq<Node>)
    requires Agree(c, list) && |file| != |c|
    ensures !Agree(file, list)
  {
    assert list[|list| - 1].height == |c| - 1;
  }

  /** A list that is a suffix of c covers c over any store that holds c below the list: the
      header list while a message extends the tip, the reorg list while a branch is built. */
  lemma {:induction false} SuffixCovers(list: seq<Node>, file: seq<Header>, c: seq<Header>, shared: nat)
    requires Agree(c, list) && shared <= |file| && shared <= |c| && file[..shared] == c[..shared]
    requires |c| - |list| <= shared
    ensures Covers(list, file, c)
  {
    forall h | 0 <= h < |c| - |list| ensures file[h] == c[h] {
      assert file[..shared][h] == c[..shared][h];
    }
  }

  // ---------- rolling back ----------

  /** Rolling back takes each tip to the lower of itself and the given height and sends one
      disconnect per removed header, tip first, each carrying its parent. */
  lemma {:induction false} DisconnectsListRemoved(file: seq<Header>, height: nat, i: nat)
    requires i < |Disconnects(file, height)|
    ensures Disconnects(file, height)[i] == Disconnect(file[|file| - 1 - i], |file| - 1 - i, file[|file| - 2 - i])
    decreases i
  {
    if i != 0 {
      DisconnectsListRemoved(file[..|file| - 1], height, i - 1);
    }
  }

  /** What a rollback leaves and reports. */
  lemma {:induction false} RollBackReports(s: State, height: nat)
    requires s.file != []
    ensures var s', kept := RollBack(s, height), KeptLength(|s.file|, height);
      && s'.file == s.file[..kept] && s'.filters == s.filters[..KeptLength(|s.filters|, height)]
      && s'.list == s.list && s'.next == s.next && Reported(s.file, kept, s.log, s'.log)
  {
    var log, kept := RollBack(s, height).log, KeptLength(|s.file|, height);
    forall i | 0 <= i < |s.file| - kept ensures ReportedAt(s.file, log, |s.log|, i) {
      DisconnectsListRemoved(s.file, height, i);
    }
  }

  lemma {:induction false} RollBackKeepsChain(p: Params, s: State, height: nat)
    requires ChainOk(p, s)
    ensures ChainOk(p, RollBack(s, height))
  {
    if height + 1 < |s.file| { PrefixIsChain(p.genesis, s.file, height + 1); }
  }

  // ---------- extending ----------

  lemma {:induction false} ExtendsChain(p: Params, c: seq<Header>, h: Header)
    requires IsChain(p.genesis, c) && h.prev == HashOf(Last(c))
    ensures IsChain(p.genesis, c + [h])
  {
    LinkedConcat(c, [h]);
  }

  /** Exits that leave headers in the list that are not in the store. */
  predicate LeavesListAhead(e: Exit) {
    e.BadCheckpoint? || (e.Insane? && 0 < e.pushed)
  }

  lemma {:induction false} ExtendSafe(p: Params, s: State, taken: seq<Header>, hs: seq<MsgHeader>)
    requires ValidParams(p) && ChainOk(p, s)
    requires IsChain(p.genesis, s.file + taken) && Agree(s.file + taken, s.list)
    requires Connected(hs) && Attached(s.file + taken, hs)
    ensures var (e, s') := Extend(p, s, taken, hs);
      && ChainOk(p, s') && s'.filters <= s.filters
      && (Agree(s'.file, s'.list) <==> !LeavesListAhead(e))
    decreases |hs|
  {
    var c := s.file + taken;
    if hs == [] {
    } else if !SaneOn(p, c, hs[0]) {
      if taken == [] { assert c == s.file; } else { AheadDisagrees(c, s.file, s.list); }
    } else {
      var h := hs[0].header;
      var list := Push(p, s.list, |c|, h);
      assert s.file + (taken + [h]) == c + [h];
      ExtendsChain(p, c, h);
      PushAgrees(p, c, s.list, h);
      if !AtCheckpoint(s.next, |c|) {
        ConnectedTail(hs, 1);
        ExtendSafe(p, s.(list := list), taken + [h], hs[1..]);
      } else if HashOf(h) != s.next.value.hash {
        ContradictedSafe(p, s, c + [h], list, PreviousCheckpoint(p.genesis, p.checkpoints, |c|).height);
      }
    }
  }

  /** Rolling back after a contradicted checkpoint leaves a chain that the list is ahead of. */
  lemma {:induction false} ContradictedSafe(p: Params, s: State, c: seq<Header>, list: seq<Node>, low: nat)
    requires ChainOk(p, s) && Agree(c, list) && |s.file| < |c|
    ensures var s' := RollBack(s.(list := list), low);
      ChainOk(p, s') && s'.filters <= s.filters && !Agree(s'.file, s'.list)
  {
    RollBackKeepsChain(p, s.(list := list), low);
    AheadDisagrees(c, RollBack(s.(list := list), low).file, list);
  }

  // ---------- stopping short ----------

  /** New headers hs on top of chain c stop short at number j: those before it are sane and
      do not reach the next checkpoint, and it contradicts the next checkpoint, or fails its
      check when headers were already pushed. pushed counts those pushed before hs. */
  predicate StopsAt(p: Params, c: seq<Header>, next: Option<Checkpoint>, hs: seq<MsgHeader>, pushed: nat, j: nat)
    requires j < |hs|
  {
    var on := c + Plain(hs[..j]);
    && AllSane(p, c, hs[..j])
    && (next.Some? ==> next.value.height < |c| || |on| <= next.value.height)
    && if SaneOn(p, on, hs[j]) then AtCheckpoint(next, |on|) && HashOf(hs[j].header) != next.value.hash
       else 0 < pushed + j
  }

  ghost predicate StopsShort(p: Params, c: seq<Header>, next: Option<Checkpoint>, hs: seq<MsgHeader>, pushed: nat)
  {
    exists j :: 0 <= j < |hs| && StopsAt(p, c, next, hs, pushed, j)
  }

  /** Stopping after the first header is stopping in what follows it. */
  lemma {:induction false} StopsLater(
      p: Params, c: seq<Header>, next: Option<Checkpoint>, hs: seq<MsgHeader>, pushed: nat, j: nat)
    requires 0 < j < |hs|
    ensures StopsAt(p, c, next, hs, pushed, j) <==>
      && SaneOn(p, c, hs[0]) && !AtCheckpoint(next, |c|)
      && StopsAt(p, c + [hs[0].header], next, hs[1..], pushed + 1, j - 1)
  {
    var first, tail := hs[..j], hs[1..][..j - 1];
    assert first[0] == hs[0] && first[1..] == tail;
    assert c + Plain(first) == c + [hs[0].header] + Plain(tail);
    assert hs[1..][j - 1] == hs[j];
  }

  lemma {:induction false} StopsShortFirst(
      p: Params, c: seq<Header>, next: Option<Checkpoint>, hs: seq<MsgHeader>, pushed: nat)
    requires hs != []
    ensures StopsShort(p, c, next, hs, pushed) <==>
      if !SaneOn(p, c, hs[0]) then 0 < pushed
      else if AtCheckpoint(next, |c|) then HashOf(hs[0].header) != next.value.hash
      else StopsShort(p, c + [hs[0].header], next, hs[1..], pushed + 1)
  {
    var on, rest, n := c + [hs[0].header], hs[1..], pushed + 1;
    assert c + Plain(hs[..0]) == c;
    assert StopsAt(p, c, next, hs, pushed, 0) <==>
      if SaneOn(p, c, hs[0]) then AtCheckpoint(next, |c|) && HashOf(hs[0].header) != next.value.hash
      else 0 < pushed;
    if j :| 0 < j < |hs| && StopsAt(p, c, next, hs, pushed, j) {
      StopsLater(p, c, next, hs, pushed, j);
      assert StopsAt(p, on, next, rest, n, j - 1);
    }
    if i :| 0 <= i < |rest| && StopsAt(p, on, next, rest, n, i) {
      StopsLater(p, c, next, hs, pushed, i + 1);
    }
  }

  /** Extending the tip leaves the list ahead exactly if the headers stop short. */
  lemma {:induction false} ExtendStops(p: Params, s: State, taken: seq<Header>, hs: seq<MsgHeader>)
    ensures LeavesListAhead(Extend(p, s, taken, hs).0) <==> StopsShort(p, s.file + taken, s.next, hs, |taken|)
    decreases |hs|
  {
    var c := s.file + taken;
    if hs == [] {
    } else {
      StopsShortFirst(p, c, s.next, hs, |taken|);
      if SaneOn(p, c, hs[0]) && !AtCheckpoint(s.next, |c|) {
        var h := hs[0].header;
        assert s.file + (taken + [h]) == c + [h];
        ExtendStops(p, s.(list := Push(p, s.list, |c|, h)), taken + [h], hs[1..]);
      }
    }
  }

  // ---------- switching to a branch ----------

  lemma {:induction false} SwitchSafe(p: Params, s: State, back: nat, h: Header)
    requires ValidParams(p) && ChainOk(p, s) && back < |s.file|
    requires h.prev == HashOf(s.file[back])
    ensures var s' := Switch(s, s.file[..back + 1], h);
      && ChainOk(p, s') && Agree(s'.file, s'.list) && s'.filters <= s.filters
      && RollBack(s, back).file == s.file[..back + 1] && s'.file + [] == s'.file
  {
    PrefixIsChain(p.genesis, s.file, back + 1);
    ExtendsChain(p, s.file[..back + 1], h);
  }

  /** Headers that all pass against their branch never make the extension fail. */
  lemma {:induction false} SaneBranchNeverFails(p: Params, s: State, taken: seq<Header>, hs: seq<MsgHeader>)
    requires AllSane(p, s.file + taken, hs)
    ensures !Extend(p, s, taken, hs).0.Insane?
    decreases |hs|
  {
    if hs != [] && !AtCheckpoint(s.next, |s.file| + |taken|) {
      var h := hs[0].header;
      assert s.file + (taken + [h]) == s.file + taken + [h];
      SaneBranchNeverFails(p, s.(list := Push(p, s.list, |s.file| + |taken|, h)), taken + [h], hs[1..]);
    }
  }

  lemma {:induction false} ReorgSafe(p: Params, s: State, hs: seq<MsgHeader>, back: nat)
    requires ValidParams(p) && ChainOk(p, s) && Agree(s.file, s.list) && Connected(hs) && hs != []
    requires back + 1 < |s.file| && hs[0].header.prev == HashOf(s.file[back])
    ensures var (e, s') := Reorg(p, s, hs, back);
      && ChainOk(p, s') && s'.filters <= s.filters && !e.Insane?
      && (Agree(s'.file, s'.list) <==> !LeavesListAhead(e))
  {
    if Judge(p, s, hs, back) == Done {
      var base, h := s.file[..back + 1], hs[0].header;
      SwitchSafe(p, s, back, h);
      ConnectedTail(hs, 1);
      ExtendSafe(p, Switch(s, base, h), [], hs[1..]);
      SaneBranchNeverFails(p, Switch(s, base, h), [], hs[1..]);
    }
  }

  // ---------- one message ----------

  /** Where the first new header of a message attaches. */
  lemma {:induction false} Attachment(p: Params, s: State, msg: seq<MsgHeader>)
    requires ValidParams(p) && ChainOk(p, s) && Connected(msg)
    requires Known(s.file, msg) < |msg|
    ensures var k := Known(s.file, msg);
      var parent := msg[k].header.prev;
      && Connected(msg[k..]) && msg[k].header !in s.file
      && (k > 0 ==> parent == HashOf(msg[k - 1].header) && parent.header in s.file)
      && (parent.HashOf? && parent.header in s.file ==>
            Depth(parent.header) < |s.file| && s.file[Depth(parent.header)] == parent.header)
  {
    var k := Known(s.file, msg);
    KnownRun(s.file, msg);
    ConnectedTail(msg, k);
    var parent := msg[k].header.prev;
    if parent.HashOf? && parent.header in s.file {
      HeightByDepth(p, s.file, parent.header);
    }
  }

  lemma {:induction false} PlainAt(hs: seq<MsgHeader>, i: nat)
    requires i < |hs|
    ensures Plain(hs)[i] == hs[i].header
  {
    if 0 < i { PlainAt(hs[1..], i - 1); }
  }

  /** Once a header of a message was batched on the tip, every later header builds on the one
      batched before it, so it is never taken for the start of a branch. */
  lemma {:induction false} BatchedNeverBranches(file: seq<Header>, msg: seq<MsgHeader>, k: nat, j: nat)
    requires file != [] && Connected(msg) && k <= j < |msg| && msg[k].header.prev == HashOf(Last(file))
    ensures msg[j].header.prev == HashOf(Last(file + Plain(msg[k..j])))
  {
    if k < j {
      assert FollowsAt(msg, j);
      var t, last := msg[k..j], j - k - 1;
      PlainAt(t, last);
      assert t[last] == msg[j - 1];
    } else {
      assert file + Plain(msg[k..j]) == file;
    }
  }

  /** The message gets as far as a new header whose parent is stored: it is connected, not
      from a stale prefetch and not ignored. */
  ghost predicate Attaches(s: State, msg: seq<MsgHeader>, mayReorg: bool, pipelined: Hash)
    requires 0 < |s.file|
  {
    && msg != [] && Connected(msg)
    && !(pipelined != ZeroHash && msg[0].header.prev == pipelined != HashOf(Last(s.file)))
    && (mayReorg || msg[0].header.prev == HashOf(Last(s.file)))
    && Known(s.file, msg) < |msg|
    && var parent := msg[Known(s.file, msg)].header.prev; parent.HashOf? && parent.header in s.file
  }

  /** The height of the stored parent of the first new header. */
  ghost function ForkHeight(s: State, msg: seq<MsgHeader>): nat
    requires Known(s.file, msg) < |msg| && msg[Known(s.file, msg)].header.prev.HashOf?
  {
    Depth(msg[Known(s.file, msg)].header.prev.header)
  }

  /** The new headers of the message are a branch off a header below the tip, and accepted. */
  ghost predicate SwitchesBranch(p: Params, s: State, msg: seq<MsgHeader>, mayReorg: bool, pipelined: Hash)
    requires 0 < |s.file|
  {
    && Attaches(s, msg, mayReorg, pipelined)
    && ForkHeight(s, msg) + 1 < |s.file|
    && Judge(p, s, msg[Known(s.file, msg)..], ForkHeight(s, msg)) == Done
  }

  /** New headers that extend the tip stop short, or new headers that branch off at the given
      height are accepted and stop short after the first. */
  ghost predicate AbandonsNew(p: Params, s: State, hs: seq<MsgHeader>, fork: nat)
    requires 0 < |hs|
  {
    if fork + 1 < |s.file| then
      && Judge(p, s, hs, fork) == Done
      && StopsShort(p, s.file[..fork + 1] + [hs[0].header], s.next, hs[1..], 0)
    else StopsShort(p, s.file, s.next, hs, 0)
  }

  /** The message attaches and its new headers stop short. */
  ghost predicate Abandons(p: Params, s: State, msg: seq<MsgHeader>, mayReorg: bool, pipelined: Hash)
    requires 0 < |s.file|
  {
    && Attaches(s, msg, mayReorg, pipelined)
    && AbandonsNew(p, s, msg[Known(s.file, msg)..], ForkHeight(s, msg))
  }

  /** What a message does is decided by where its new headers attach, if they do. */
  lemma {:induction false} HandleCases(p: Params, s: State, msg: seq<MsgHeader>, mayReorg: bool, pipelined: Hash)
    requires 0 < |s.file|
    ensures var (e, s') := Handle(p, s, msg, mayReorg, pipelined);
      if !Attaches(s, msg, mayReorg, pipelined) then s' == s && !LeavesListAhead(e)
      else if ForkHeight(s, msg) + 1 < |s.file| then
        (e, s') == Reorg(p, s, msg[Known(s.file, msg)..], ForkHeight(s, msg))
      else (e, s') == Extend(p, s, [], msg[Known(s.file, msg)..])
  {
  }

  /** New headers leave the list ahead exactly if they stop short. */
  lemma {:induction false} AttachStops(p: Params, s: State, hs: seq<MsgHeader>, fork: nat)
    requires 0 < |hs|
    ensures fork + 1 < |s.file| ==> (LeavesListAhead(Reorg(p, s, hs, fork).0) <==> AbandonsNew(p, s, hs, fork))
    ensures |s.file| <= fork + 1 ==> (LeavesListAhead(Extend(p, s, [], hs).0) <==> AbandonsNew(p, s, hs, fork))
  {
    if fork + 1 < |s.file| {
      var s1 := Switch(s, s.file[..fork + 1], hs[0].header);
      ExtendStops(p, s1, [], hs[1..]);
      assert s1.file + [] == s1.file;
    } else {
      ExtendStops(p, s, [], hs);
      assert s.file + [] == s.file;
    }
  }

  /** A message leaves the list ahead exactly if its headers stop short. */
  lemma {:induction false} HandleStops(p: Params, s: State, msg: seq<MsgHeader>, mayReorg: bool, pipelined: Hash)
    requires 0 < |s.file|
    ensures LeavesListAhead(Handle(p, s, msg, mayReorg, pipelined).0) <==>
      Abandons(p, s, msg, mayReorg, pipelined)
  {
    HandleCases(p, s, msg, mayReorg, pipelined);
    if Attaches(s, msg, mayReorg, pipelined) {
      AttachStops(p, s, msg[Known(s.file, msg)..], ForkHeight(s, msg));
    }
  }

  lemma {:induction false} HandleKeepsChain(p: Params, s: State, msg: seq<MsgHeader>, mayReorg: bool, pipelined: Hash)
    requires ValidParams(p) && ChainOk(p, s) && Agree(s.file, s.list)
    ensures var (e, s') := Handle(p, s, msg, mayReorg, pipelined);
      && ChainOk(p, s') && s'.filters <= s.filters
      && (Agree(s'.file, s'.list) <==> !LeavesListAhead(e))
  {
    HandleCases(p, s, msg, mayReorg, pipelined);
    if Attaches(s, msg, mayReorg, pipelined) {
      var k := Known(s.file, msg);
      Attachment(p, s, msg);
      if ForkHeight(s, msg) + 1 < |s.file| {
        ReorgSafe(p, s, msg[k..], ForkHeight(s, msg));
      } else {
        assert s.file + [] == s.file;
        ExtendSafe(p, s, [], msg[k..]);
      }
    }
  }

  /** From a state whose list agrees with its store, every exit of every message leaves the
      store a hash-linked chain from genesis with filter headers not ahead of it, and the
      list agrees again exactly if the headers of the message do not stop short. */
  lemma {:induction false} HandleSafe(p: Params, s: State, msg: seq<MsgHeader>, mayReorg: bool, pipelined: Hash)
    requires ValidParams(p) && ChainOk(p, s) && Agree(s.file, s.list)
    ensures var (e, s') := Handle(p, s, msg, mayReorg, pipelined);
      && ChainOk(p, s') && s'.filters <= s.filters
      && (Agree(s'.file, s'.list) <==> !Abandons(p, s, msg, mayReorg, pipelined))
  {
    HandleStops(p, s, msg, mayReorg, pipelined);
    HandleKeepsChain(p, s, msg, mayReorg, pipelined);
  }

  // ---------- work ----------

  /** A completed message stores all its new headers unless it stopped at the checkpoint. */
  lemma {:induction false} ExtendStoresAll(p: Params, s: State, taken: seq<Header>, hs: seq<MsgHeader>)
    ensures var (e, s') := Extend(p, s, taken, hs);
      e == Done && s'.next == s.next ==> s'.file == s.file + taken + Plain(hs)
    decreases |hs|
  {
    if hs != [] && !AtCheckpoint(s.next, |s.file| + |taken|) {
      var h := hs[0].header;
      var rest := Plain(hs[1..]);
      ExtendStoresAll(p, s.(list := Push(p, s.list, |s.file| + |taken|, h)), taken + [h], hs[1..]);
      assert Plain(hs) == [h] + rest;
      assert s.file + (taken + [h]) + rest == s.file + taken + ([h] + rest);
    }
  }

  /** The work rule without division: more work, and the lighter of the two tips weighs less than four
      times one more than the gain. */
  lemma {:induction false} WorkRule(current: nat, proposed: nat, currentTip: nat, proposedTip: nat)
    ensures ShouldChangeTip(current, proposed, currentTip, proposedTip) <==>
      && current < proposed
      && (currentTip < 4 * (proposed - current + 1) || proposedTip < 4 * (proposed - current + 1))
  {
    var light := if proposedTip < currentTip then proposedTip else currentTip;
    assert light == 4 * (light / 4) + light % 4;
  }

  /** A branch is accepted exactly if no checkpoint below the tip is above its fork, its headers pass
      their checks, and the work rule is met by the two sums. */
  lemma {:induction false} AcceptedExactlyIf(p: Params, s: State, hs: seq<MsgHeader>, back: nat)
    requires ValidParams(p) && hs != [] && back + 1 < |s.file|
    ensures var was, now := WorkSum(p.work, s.file[back + 1..]), WorkSum(p.work, Plain(hs));
      var tip, last := p.work(Last(s.file).bits), p.work(hs[|hs| - 1].header.bits);
      Judge(p, s, hs, back) == Done <==>
        && (forall cp :: cp in p.checkpoints && cp.height + 1 < |s.file| ==> cp.height <= back)
        && AllSane(p, s.file[..back + 1], hs)
        && was < now && (tip < 4 * (now - was + 1) || last < 4 * (now - was + 1))
  {
    WorkRule(WorkSum(p.work, s.file[back + 1..]), WorkSum(p.work, Plain(hs)), p.work(Last(s.file).bits),
             p.work(hs[|hs| - 1].header.bits));
  }

  /** An accepted branch that is stored in full carries strictly more work than the stored
      headers it replaces, so the whole chain gains work. The next checkpoint is unchanged
      exactly when the message did not reach it. */
  lemma {:induction false} ReorgGainsWork(p: Params, s: State, hs: seq<MsgHeader>, back: nat)
    requires hs != [] && back + 1 < |s.file|
    ensures var (e, s') := Reorg(p, s, hs, back);
      e == Done && s'.next == s.next ==>
        && s'.file == s.file[..back + 1] + Plain(hs)
        && WorkSum(p.work, s.file) < WorkSum(p.work, s'.file)
  {
    if Judge(p, s, hs, back) == Done {
      SwitchStoresAll(p, s, s.file[..back + 1], hs);
      HeavierBranch(p, s.file, back, Plain(hs));
    }
  }

  lemma {:induction false} SwitchStoresAll(p: Params, s: State, base: seq<Header>, hs: seq<MsgHeader>)
    requires hs != [] && base != []
    ensures var (e, s') := Extend(p, Switch(s, base, hs[0].header), [], hs[1..]);
      e == Done && s'.next == s.next ==> s'.file == base + Plain(hs)
  {
    ExtendStoresAll(p, Switch(s, base, hs[0].header), [], hs[1..]);
    assert base + [hs[0].header] + [] + Plain(hs[1..]) == base + Plain(hs);
  }

  lemma {:induction false} HeavierBranch(p: Params, file: seq<Header>, back: nat, branch: seq<Header>)
    requires back < |file| && WorkSum(p.work, file[back + 1..]) < WorkSum(p.work, branch)
    ensures WorkSum(p.work, file) < WorkSum(p.work, file[..back + 1] + branch)
  {
    WorkSumConcat(p.work, file[..back + 1], branch);
    WorkSumConcat(p.work, file[..back + 1], file[back + 1..]);
    assert file == file[..back + 1] + file[back + 1..];
  }

  /** Without a checkpoint being reached, no completed message loses work. */
  lemma {:induction false} HandleKeepsWork(p: Params, s: State, msg: seq<MsgHeader>, mayReorg: bool, pipelined: Hash)
    requires 0 < |s.file|
    ensures var (e, s') := Handle(p, s, msg, mayReorg, pipelined);
      e == Done && s'.next == s.next ==> WorkSum(p.work, s.file) <= WorkSum(p.work, s'.file)
  {
    var (e, s') := Handle(p, s, msg, mayReorg, pipelined);
    var k := Known(s.file, msg);
    if e == Done && k < |msg| {
      var back := Depth(msg[k..][0].header.prev.header);
      if back + 1 < |s.file| {
        ReorgGainsWork(p, s, msg[k..], back);
      } else {
        ExtendStoresAll(p, s, [], msg[k..]);
        assert s.file + [] == s.file;
        WorkSumConcat(p.work, s.file, Plain(msg[k..]));
      }
    }
  }
}
