/** The handler of headers messages on any in-memory list: it does what the rules say when the
    list agrees with the store, and otherwise the store stays a chain unless a message is
    grafted onto it. */
module HeaderList {
  import opened Chain
  import opened HeaderRules
  import opened HeaderSafety

  lemma {:induction false} PushBackIs(p: Params, list: seq<Node>, height: nat, h: Header)
    requires 0 < p.maxMem
    ensures Push(p, list, height, h) != [] && Back(Push(p, list, height, h)) == Node(height, h)
  {
  }

  // ---------- a list that agrees with the store ----------

  /** The headers taken are on top of the store in the list but not in the store, and hs is what
      is left of a message that fits the list. */
  ghost predicate Held(p: Params, s: State, taken: seq<Header>, hs: seq<MsgHeader>) {
    GripOf(p, s, taken, hs) == Firm
  }

  datatype Grip = Firm | Slipped

  /** The same as one value. */
  ghost function GripOf(p: Params, s: State, taken: seq<Header>, hs: seq<MsgHeader>): Grip {
    if && ValidParams(p) && ChainOk(p, s)
       && IsChain(p.genesis, s.file + taken) && Agree(s.file + taken, s.list)
       && |taken| <= |s.list| && |taken| + |hs| <= p.maxMem
       && Connected(hs) && Attached(s.file + taken, hs)
    then Firm else Slipped
  }

  /** Taking one more header: it builds on the back of the list, and checking it against the list
      is checking it against the chain. */
  lemma {:induction false} HeldOneMore(p: Params, s: State, taken: seq<Header>, hs: seq<MsgHeader>)
    requires Held(p, s, taken, hs) && hs != []
    ensures s.list != [] && 0 < p.maxMem && Back(s.list).height + 1 == |s.file| + |taken|
    ensures SaneOnList(p, s.list, s.file, hs[0]) <==> SaneOn(p, s.file + taken, hs[0])
    ensures var h := hs[0].header;
      Held(p, s.(list := Push(p, s.list, |s.file| + |taken|, h)), taken + [h], hs[1..])
  {
    var c, h := s.file + taken, hs[0].header;
    SuffixCovers(s.list, s.file, c, |s.file|);
    ViewIsAncestry(p, s.list, s.file, c);
    assert s.file + (taken + [h]) == c + [h];
    ExtendsChain(p, c, h);
    PushAgrees(p, c, s.list, h);
    ConnectedTail(hs, 1);
  }

  /** What the first header of a run decides, by the chain and by the list. */
  lemma {:induction false} ExtendFirst(p: Params, s: State, taken: seq<Header>, hs: seq<MsgHeader>)
    requires hs != []
    ensures var h, height := hs[0].header, |s.file| + |taken|;
      var (stop, v) := Pushed(p, s, h, height, taken + [h]);
      Extend(p, s, taken, hs) ==
        if !SaneOn(p, s.file + taken, hs[0]) then (Insane(|taken|), s)
        else if stop.Some? then (stop.value, v) else Extend(p, v, taken + [h], hs[1..])
  {
  }

  lemma {:induction false} ExtendListFirst(p: Params, s: State, batch: seq<Header>, hs: seq<MsgHeader>)
    requires hs != [] && s.list != [] && 0 < p.maxMem
    ensures var h := hs[0].header;
      var (stop, v) := Pushed(p, s, h, Back(s.list).height + 1, batch + [h]);
      ExtendList(p, s, batch, hs) ==
        if !SaneOnList(p, s.list, s.file, hs[0]) then (Insane(|batch|), s)
        else if stop.Some? then (stop.value, v) else ExtendList(p, v, batch + [h], hs[1..])
  {
  }

  /** Extending by the list and by the chain is the same if it is for the first header and for
      the rest. */
  lemma {:induction false} SameStep(p: Params, s: State, taken: seq<Header>, hs: seq<MsgHeader>)
    requires hs != [] && s.list != [] && 0 < p.maxMem && Back(s.list).height + 1 == |s.file| + |taken|
    requires SaneOnList(p, s.list, s.file, hs[0]) <==> SaneOn(p, s.file + taken, hs[0])
    requires var h, height := hs[0].header, |s.file| + |taken|;
      var v := s.(list := Push(p, s.list, height, h));
      !AtCheckpoint(s.next, height) ==>
        v.list != [] && ExtendList(p, v, taken + [h], hs[1..]) == Extend(p, v, taken + [h], hs[1..])
    ensures ExtendList(p, s, taken, hs) == Extend(p, s, taken, hs)
  {
    ExtendFirst(p, s, taken, hs);
    ExtendListFirst(p, s, taken, hs);
  }

  /** Extending the list is extending the chain. */
  lemma {:induction false} ExtendListIs(p: Params, s: State, taken: seq<Header>, hs: seq<MsgHeader>)
    requires Held(p, s, taken, hs) && s.list != [] && 0 < p.maxMem
    ensures ExtendList(p, s, taken, hs) == Extend(p, s, taken, hs)
    decreases |hs|
  {
    if hs == [] {
    } else {
      var height := |s.file| + |taken|;
      var h := hs[0].header;
      HeldOneMore(p, s, taken, hs);
      if !AtCheckpoint(s.next, height) {
        PushBackIs(p, s.list, height, h);
        ExtendListIs(p, s.(list := Push(p, s.list, height, h)), taken + [h], hs[1..]);
      }
      SameStep(p, s, taken, hs);
    }
  }

  /** The walk through list and store sums the work of the stored headers above the fork. */
  lemma {:induction false} KnownWalkIs(
      p: Params, list: seq<Node>, file: seq<Header>, el: int, head: Header, j: int, back: nat, total: nat)
    requires IsChain(p.genesis, file) && Agree(file, list) && back <= j < |file|
    requires total == WorkSum(p.work, file[j + 1..])
    requires el == if j < |file| - |list| then -1 else j - (|file| - |list|)
    requires el < 0 ==> j + 1 < |file| && head == file[j + 1]
    ensures KnownWalk(p.work, list, file, el, head, j, back, total) == Some(WorkSum(p.work, file[back + 1..]))
    decreases j
  {
    if back < j {
      var total', below := total + p.work(file[j].bits), j - 1;
      WorkSumFrom(p.work, file, j);
      if 0 <= el {
        assert list[el] == Node(j, file[j]);
        KnownWalkIs(p, list, file, el - 1, file[j], below, back, total');
      } else {
        assert LinkAt(file, j + 1);
        KnownWalkIs(p, list, file, el, file[j], below, back, total');
      }
    }
  }

  lemma {:induction false} KnownSum(p: Params, s: State, back: nat)
    requires ValidParams(p) && ChainOk(p, s) && Agree(s.file, s.list) && back < |s.file|
    ensures Back(s.list) == Node(|s.file| - 1, Last(s.file))
    ensures KnownWalk(p.work, s.list, s.file, |s.list| - 1, Back(s.list).header, Back(s.list).height, back, 0) ==
      Some(WorkSum(p.work, s.file[back + 1..]))
  {
    KnownWalkIs(p, s.list, s.file, |s.list| - 1, Back(s.list).header, |s.file| - 1, back, 0);
  }

  lemma {:induction false} JudgeListIs(p: Params, s: State, hs: seq<MsgHeader>, back: nat)
    requires ValidParams(p) && ChainOk(p, s) && Agree(s.file, s.list) && hs != [] && back + 1 < |s.file|
    ensures JudgeList(p, s, hs, back) == Judge(p, s, hs, back)
  {
    KnownSum(p, s, back);
  }

  /** A header on the tip is not stored. */
  lemma {:induction false} NewOnTip(p: Params, file: seq<Header>, h: Header)
    requires ValidParams(p) && IsChain(p.genesis, file) && h.prev == HashOf(Last(file))
    ensures h !in file
  {
    if h in file {
      HeightByDepth(p, file, h);
      DepthIsHeight(p.genesis, file, |file| - 1);
      assert false;
    }
  }

  /** With the tip at the back of the list exactly the known headers are passed over. */
  lemma {:induction false} PassedIsKnown(p: Params, file: seq<Header>, msg: seq<MsgHeader>)
    requires ValidParams(p) && IsChain(p.genesis, file)
    ensures Passed(file, Last(file), msg) == Known(file, msg)
  {
    if msg != [] {
      PassedIsKnown(p, file, msg[1..]);
      if msg[0].header.prev == HashOf(Last(file)) { NewOnTip(p, file, msg[0].header); }
    }
  }

  /** A branch off an agreeing list is a branch off the store. */
  lemma {:induction false} BranchOffIs(p: Params, s: State, hs: seq<MsgHeader>)
    requires ValidParams(p) && ChainOk(p, s) && Agree(s.file, s.list)
    requires 0 < |hs| <= p.maxMem && Connected(hs) && hs[0].header.prev != HashOf(Last(s.file))
    ensures BranchOff(p, s, hs) == Attach(p, s, hs)
  {
    var parent := hs[0].header.prev;
    if parent.HashOf? && parent.header in s.file {
      var fork := Depth(parent.header);
      HeightByDepth(p, s.file, parent.header);
      JudgeListIs(p, s, hs, fork);
      SwitchSafe(p, s, fork, hs[0].header);
      ConnectedTail(hs, 1);
      ExtendListIs(p, Switch(s, s.file[..fork + 1], hs[0].header), [], hs[1..]);
    }
  }

  /** From a state whose list agrees with its store the handler does what the rules say. */
  lemma {:induction false} ReactIsHandle(p: Params, s: State, msg: seq<MsgHeader>, mayReorg: bool, pipelined: Hash)
    requires ValidParams(p) && ChainOk(p, s) && Agree(s.file, s.list) && |msg| <= p.maxMem
    ensures React(p, s, msg, mayReorg, pipelined) == Handle(p, s, msg, mayReorg, pipelined)
  {
    assert Back(s.list).header == Last(s.file);
    PassedIsKnown(p, s.file, msg);
    var n := Known(s.file, msg);
    if Connected(msg) && n < |msg| {
      ConnectedTail(msg, n);
      if msg[n].header.prev == HashOf(Last(s.file)) {
        DepthIsHeight(p.genesis, s.file, |s.file| - 1);
        assert s.file + [] == s.file;
        ExtendListIs(p, s, [], msg[n..]);
      } else {
        BranchOffIs(p, s, msg[n..]);
      }
    }
  }

  // ---------- grafts ----------

  /** Every header passes on the list as pushed so far, up to the end or up to a next checkpoint
      with the right hash. */
  predicate TakesAll(p: Params, list: seq<Node>, file: seq<Header>, next: Option<Checkpoint>, hs: seq<MsgHeader>)
    requires list != [] && 0 < p.maxMem
    decreases |hs|
  {
    hs == [] ||
    (&& SaneOnList(p, list, file, hs[0])
     && var h, height := hs[0].header, Back(list).height + 1;
        if AtCheckpoint(next, height) then HashOf(h) == next.value.hash
        else TakesAll(p, Push(p, list, height, h), file, next, hs[1..]))
  }

  /** The message gets as far as a header that is not passed over: it is connected, not from a stale
      prefetch and not ignored. */
  ghost predicate Reaches(s: State, msg: seq<MsgHeader>, mayReorg: bool, pipelined: Hash)
    requires s.list != []
  {
    var b := Back(s.list).header;
    && msg != [] && Connected(msg)
    && !(pipelined != ZeroHash && msg[0].header.prev == pipelined != HashOf(b))
    && (mayReorg || msg[0].header.prev == HashOf(b))
    && Passed(s.file, b, msg) < |msg|
  }

  /** The headers of the message that are not passed over. */
  ghost function NewHeaders(s: State, msg: seq<MsgHeader>): seq<MsgHeader>
    requires s.list != []
  {
    msg[Passed(s.file, Back(s.list).header, msg)..]
  }

  /** The message is taken as an extension of a list whose back is not the tip of the store. */
  ghost predicate Grafts(p: Params, s: State, msg: seq<MsgHeader>, mayReorg: bool, pipelined: Hash)
    requires s.list != [] && s.file != [] && 0 < p.maxMem
  {
    var b, hs := Back(s.list).header, NewHeaders(s, msg);
    && Reaches(s, msg, mayReorg, pipelined) && b != Last(s.file)
    && hs[0].header.prev == HashOf(b) && TakesAll(p, s.list, s.file, s.next, hs)
  }

  /** What a message does is decided by the first header that is not passed over, if there is one. */
  lemma {:induction false} ReactCases(p: Params, s: State, msg: seq<MsgHeader>, mayReorg: bool, pipelined: Hash)
    requires s.list != [] && 2 <= p.maxMem
    ensures var r, hs := React(p, s, msg, mayReorg, pipelined), NewHeaders(s, msg);
      if !Reaches(s, msg, mayReorg, pipelined) then r.1 == s
      else
        && hs != [] && Connected(hs)
        && r == if hs[0].header.prev == HashOf(Back(s.list).header) then ExtendList(p, s, [], hs)
                else BranchOff(p, s, hs)
  {
    if Reaches(s, msg, mayReorg, pipelined) {
      ConnectedTail(msg, Passed(s.file, Back(s.list).header, msg));
    }
  }

  /** A branch is off the stored parent of its first header, if there is one. */
  lemma {:induction false} BranchOffCases(p: Params, s: State, hs: seq<MsgHeader>)
    requires ValidParams(p) && ChainOk(p, s) && s.list != [] && hs != []
    ensures var parent := hs[0].header.prev;
      if parent.ZeroHash? || parent.header !in s.file then BranchOff(p, s, hs) == (Orphan, s)
      else
        var fork := Depth(parent.header);
        && fork < |s.file| && s.file[fork] == parent.header
        && BranchOff(p, s, hs) ==
           if JudgeList(p, s, hs, fork) != Done then (JudgeList(p, s, hs, fork), s)
           else ExtendList(p, Switch(s, s.file[..fork + 1], hs[0].header), [], hs[1..])
  {
    var parent := hs[0].header.prev;
    if parent.HashOf? && parent.header in s.file { HeightByDepth(p, s.file, parent.header); }
  }

  // ---------- what is reported ----------

  /** The height of the stored header that the branch hs is off, if it is accepted. */
  ghost function BranchFork(p: Params, s: State, hs: seq<MsgHeader>): (fork: Option<nat>)
    requires s.list != [] && hs != []
    ensures fork.Some? ==> fork.value < |s.file|
  {
    var parent := hs[0].header.prev;
    if parent.ZeroHash? || parent.header !in s.file || |s.file| <= Depth(parent.header) then None
    else if JudgeList(p, s, hs, Depth(parent.header)) != Done then None
    else Some(Depth(parent.header))
  }

  /** What is told of a message whose first header that is not passed over is h. An accepted branch
      disconnects the stored headers above its fork, and h is stored in their place. A header that
      contradicts the next checkpoint disconnects what is then stored above the checkpoint before it.
      Nothing else is told, and filter headers leave with the headers they are for. */
  ghost predicate Tells(p: Params, s: State, fork: Option<nat>, h: Header, e: Exit, s': State)
    requires fork.Some? ==> fork.value < |s.file|
  {
    var kept := if fork.None? then |s.file| else fork.value + 1;
    var n, filters := |s.log| + |s.file| - kept, UpTo(s.filters, kept);
    && n <= |s'.log| && Reported(s.file, kept, s.log, s'.log[..n])
    && if e != BadCheckpoint then |s'.log| == n && s'.filters == filters
       else CutBack(p, if fork.None? then s.file else s.file[..kept] + [h], filters, s'.log[..n], s')
  }

  /** The first so many of some filter headers. */
  function UpTo(filters: seq<FilterHeader>, length: nat): seq<FilterHeader> {
    if length < |filters| then filters[..length] else filters
  }

  /** The same for a message: it is a branch if the header does not build on the back of the list. */
  ghost predicate TellsOfMessage(
      p: Params, s: State, msg: seq<MsgHeader>, mayReorg: bool, pipelined: Hash, e: Exit, s': State)
    requires s.list != []
  {
    if !Reaches(s, msg, mayReorg, pipelined) then s'.log == s.log && s'.filters == s.filters
    else
      var hs := NewHeaders(s, msg);
      var branch := hs[0].header.prev != HashOf(Back(s.list).header);
      Tells(p, s, if branch then BranchFork(p, s, hs) else None, hs[0].header, e, s')
  }

  /** The file was cut back to the checkpoint before the next one, and this was told. */
  ghost predicate CutBack(
      p: Params, file: seq<Header>, filters: seq<FilterHeader>, log: seq<Disconnect>, s': State)
  {
    && s'.next.Some?
    && var height := PreviousCheckpoint(p.genesis, p.checkpoints, s'.next.value.height).height;
       var cut := KeptLength(|file|, height);
       s'.file == file[..cut] && s'.filters == UpTo(filters, height + 1) && Reported(file, cut, log, s'.log)
  }

  lemma {:induction false} ExtendListTells(p: Params, s: State, batch: seq<Header>, hs: seq<MsgHeader>)
    requires s.list != [] && s.file != [] && 0 < p.maxMem
    ensures var (e, s') := ExtendList(p, s, batch, hs);
      if e == BadCheckpoint then CutBack(p, s.file, s.filters, s.log, s')
      else s'.log == s.log && s'.filters == s.filters
    decreases |hs|
  {
    if hs != [] {
      ExtendListFirst(p, s, batch, hs);
      if SaneOnList(p, s.list, s.file, hs[0]) {
        var h, height := hs[0].header, Back(s.list).height + 1;
        PushBackIs(p, s.list, height, h);
        var pushed := s.(list := Push(p, s.list, height, h));
        if !AtCheckpoint(s.next, height) {
          ExtendListTells(p, pushed, batch + [h], hs[1..]);
        } else if HashOf(h) != s.next.value.hash {
          RollBackReports(pushed, PreviousCheckpoint(p.genesis, p.checkpoints, height).height);
        }
      }
    }
  }

  /** Nothing was removed, and nothing told, before the list is extended. */
  lemma {:induction false} TellsOfExtension(p: Params, s: State, h: Header, e: Exit, s': State)
    requires s.file != [] && |s.filters| <= |s.file|
    requires if e == BadCheckpoint then CutBack(p, s.file, s.filters, s.log, s')
      else s'.log == s.log && s'.filters == s.filters
    ensures Tells(p, s, None, h, e, s')
  {
    assert s'.log[..|s.log|] == s.log;
  }

  /** A branch was switched to first. */
  lemma {:induction false} TellsOfSwitch(p: Params, s: State, fork: nat, h: Header, v: State, e: Exit, s': State)
    requires fork < |s.file| && v.file == s.file[..fork + 1] + [h] && Reported(s.file, fork + 1, s.log, v.log)
    requires v.filters == UpTo(s.filters, fork + 1)
    requires if e == BadCheckpoint then CutBack(p, v.file, v.filters, v.log, s')
      else s'.log == v.log && s'.filters == v.filters
    ensures Tells(p, s, Some(fork), h, e, s')
  {
    assert s'.log[..|v.log|] == v.log;
  }

  /** A branch that is not accepted leaves all as it is; one that is accepted is switched to. */
  lemma {:induction false} BranchForkCases(p: Params, s: State, hs: seq<MsgHeader>)
    requires ValidParams(p) && ChainOk(p, s) && s.list != [] && hs != []
    ensures var (e, s'), fork := BranchOff(p, s, hs), BranchFork(p, s, hs);
      if fork.None? then e != BadCheckpoint && s' == s
      else (e, s') == ExtendList(p, Switch(s, s.file[..fork.value + 1], hs[0].header), [], hs[1..])
  {
    BranchOffCases(p, s, hs);
  }

  lemma {:induction false} BranchOffTells(p: Params, s: State, hs: seq<MsgHeader>)
    requires ValidParams(p) && ChainOk(p, s) && s.list != [] && hs != []
    ensures var (e, s') := BranchOff(p, s, hs); Tells(p, s, BranchFork(p, s, hs), hs[0].header, e, s')
  {
    var (e, s') := BranchOff(p, s, hs);
    var fork, h := BranchFork(p, s, hs), hs[0].header;
    BranchForkCases(p, s, hs);
    if fork.None? {
      TellsOfExtension(p, s, h, e, s');
    } else {
      var v := Switch(s, s.file[..fork.value + 1], h);
      RollBackReports(s, fork.value);
      ExtendListTells(p, v, [], hs[1..]);
      TellsOfSwitch(p, s, fork.value, h, v, e, s');
    }
  }

  /** The next checkpoint moves on only when the store ends with the header of that checkpoint, and
      then to the one after it. */
  ghost predicate MovesOn(p: Params, s: State, e: Exit, s': State) {
    || s'.next == s.next
    || (&& e == Done && s.next.Some? && s'.file != [] && HashOf(Last(s'.file)) == s.next.value.hash
        && s'.next == NextCheckpoint(p.checkpoints, s.next.value.height))
  }

  lemma {:induction false} ExtendListMovesOn(p: Params, s: State, batch: seq<Header>, hs: seq<MsgHeader>)
    requires s.list != [] && 0 < p.maxMem
    ensures var (e, s') := ExtendList(p, s, batch, hs); MovesOn(p, s, e, s')
    decreases |hs|
  {
    if hs != [] {
      ExtendListFirst(p, s, batch, hs);
      var h, height := hs[0].header, Back(s.list).height + 1;
      PushBackIs(p, s.list, height, h);
      if SaneOnList(p, s.list, s.file, hs[0]) && !AtCheckpoint(s.next, height) {
        ExtendListMovesOn(p, s.(list := Push(p, s.list, height, h)), batch + [h], hs[1..]);
      }
    }
  }

  lemma {:induction false} ReactMovesOn(p: Params, s: State, msg: seq<MsgHeader>, mayReorg: bool, pipelined: Hash)
    requires ValidParams(p) && ChainOk(p, s) && s.list != []
    ensures var (e, s') := React(p, s, msg, mayReorg, pipelined); MovesOn(p, s, e, s')
  {
    var hs := NewHeaders(s, msg);
    ReactCases(p, s, msg, mayReorg, pipelined);
    if Reaches(s, msg, mayReorg, pipelined) {
      if hs[0].header.prev == HashOf(Back(s.list).header) {
        ExtendListMovesOn(p, s, [], hs);
      } else {
        var fork := BranchFork(p, s, hs);
        BranchForkCases(p, s, hs);
        if fork.Some? {
          ExtendListMovesOn(p, Switch(s, s.file[..fork.value + 1], hs[0].header), [], hs[1..]);
        }
      }
    }
  }

  /** Every message, from every list: the disconnects sent are exactly those of the headers that left
      the store. */
  lemma {:induction false} ReactTells(p: Params, s: State, msg: seq<MsgHeader>, mayReorg: bool, pipelined: Hash)
    requires ValidParams(p) && ChainOk(p, s) && s.list != []
    ensures var (e, s') := React(p, s, msg, mayReorg, pipelined);
      TellsOfMessage(p, s, msg, mayReorg, pipelined, e, s')
  {
    var hs := NewHeaders(s, msg);
    var (e, s') := React(p, s, msg, mayReorg, pipelined);
    ReactCases(p, s, msg, mayReorg, pipelined);
    if Reaches(s, msg, mayReorg, pipelined) {
      if hs[0].header.prev == HashOf(Back(s.list).header) {
        ExtendListTells(p, s, [], hs);
        TellsOfExtension(p, s, hs[0].header, e, s');
      } else {
        BranchOffTells(p, s, hs);
      }
    }
  }

  /** The back of the list is at the height its ancestry gives. */
  ghost predicate Placed(list: seq<Node>) {
    list != [] && Back(list).height == Depth(Back(list).header)
  }

  /** Writing what builds on the back of the list keeps the store a chain exactly if that is the
      tip of the store. */
  lemma {:induction false} ExtensionNeedsAgreement(p: Params, file: seq<Header>, b: Header, hs: seq<Header>)
    requires IsChain(p.genesis, file) && hs != [] && Linked(hs) && hs[0].prev == HashOf(b)
    ensures IsChain(p.genesis, file + hs) <==> b == Last(file)
  {
    var c := file + hs;
    if IsChain(p.genesis, c) {
      assert LinkAt(c, |file|);
    } else if b == Last(file) {
      LinkedConcat(file, hs);
      assert false;
    }
  }

  /** The headers batched are linked, start on the header b and end with the back of the list. */
  ghost predicate Batched(s: State, b: Header, batch: seq<Header>) {
    && s.list != [] && Linked(batch)
    && Back(s.list).header == (if batch == [] then b else Last(batch))
    && (batch != [] ==> batch[0].prev == HashOf(b))
  }

  lemma {:induction false} BatchedMore(s: State, b: Header, batch: seq<Header>, h: Header, list: seq<Node>)
    requires Batched(s, b, batch) && h.prev == HashOf(Back(s.list).header) && list != [] && Back(list).header == h
    ensures Batched(s.(list := list), b, batch + [h])
  {
    if batch != [] { LinkedConcat(batch, [h]); }
  }

  /** An extension of the list that is taken writes everything up to the end or the checkpoint. */
  lemma {:induction false} TakenIsWritten(p: Params, s: State, b: Header, batch: seq<Header>, hs: seq<MsgHeader>)
      returns (written: seq<Header>)
    requires ValidParams(p) && Batched(s, b, batch) && Connected(hs)
    requires hs != [] ==> hs[0].header.prev == HashOf(Back(s.list).header)
    requires TakesAll(p, s.list, s.file, s.next, hs)
    ensures var (e, s') := ExtendList(p, s, batch, hs);
      && e == Done && s'.file == s.file + written && s'.filters == s.filters
      && batch <= written && (hs != [] ==> batch < written) && Batched(s', b, written)
    decreases |hs|
  {
    written := batch;
    if hs == [] {
    } else {
      var h, height := hs[0].header, Back(s.list).height + 1;
      var list := Push(p, s.list, height, h);
      ExtendListFirst(p, s, batch, hs);
      PushBackIs(p, s.list, height, h);
      BatchedMore(s, b, batch, h, list);
      if AtCheckpoint(s.next, height) {
        written := batch + [h];
      } else {
        ConnectedTail(hs, 1);
        written := TakenIsWritten(p, s.(list := list), b, batch + [h], hs[1..]);
      }
    }
  }

  /** A contradicted checkpoint rolls the stores back to a shorter chain. */
  lemma {:induction false} ContradictedRollsBack(p: Params, s: State, h: Header, height: nat, batch: seq<Header>)
    requires ChainOk(p, s) && AtCheckpoint(s.next, height) && HashOf(h) != s.next.value.hash
    ensures var (stop, v) := Pushed(p, s, h, height, batch);
      stop == Some(BadCheckpoint) && ChainOk(p, v) && v.file <= s.file && v.next == s.next
  {
    RollBackKeepsChain(
      p, s.(list := Push(p, s.list, height, h)), PreviousCheckpoint(p.genesis, p.checkpoints, height).height);
  }

  /** One that is not taken writes nothing, and may roll the stores back. */
  lemma {:induction false} RefusedIsDropped(p: Params, s: State, batch: seq<Header>, hs: seq<MsgHeader>)
    requires ValidParams(p) && ChainOk(p, s) && s.list != []
    requires !TakesAll(p, s.list, s.file, s.next, hs)
    ensures var s' := ExtendList(p, s, batch, hs).1;
      ChainOk(p, s') && s'.file <= s.file && s'.next == s.next
    decreases |hs|
  {
    ExtendListFirst(p, s, batch, hs);
    if SaneOnList(p, s.list, s.file, hs[0]) {
      var h, height := hs[0].header, Back(s.list).height + 1;
      if AtCheckpoint(s.next, height) {
        ContradictedRollsBack(p, s, h, height, batch + [h]);
      } else {
        PushBackIs(p, s.list, height, h);
        RefusedIsDropped(p, s.(list := Push(p, s.list, height, h)), batch + [h], hs[1..]);
      }
    }
  }

  /** An extension of the list keeps the store a chain exactly if the list ends in the tip, or
      not all of it is taken. */
  lemma {:induction false} ExtendListChain(p: Params, s: State, hs: seq<MsgHeader>)
    requires ValidParams(p) && ChainOk(p, s) && s.list != [] && Connected(hs)
    requires hs != [] ==> hs[0].header.prev == HashOf(Back(s.list).header)
    ensures var s' := ExtendList(p, s, [], hs).1;
      var sound := hs == [] || Back(s.list).header == Last(s.file) || !TakesAll(p, s.list, s.file, s.next, hs);
      && (IsChain(p.genesis, s'.file) <==> sound)
      && (sound ==> ChainOk(p, s'))
  {
    var b := Back(s.list).header;
    if hs == [] {
      assert s.file + [] == s.file;
    } else if TakesAll(p, s.list, s.file, s.next, hs) {
      var written := TakenIsWritten(p, s, b, [], hs);
      ExtensionNeedsAgreement(p, s.file, b, written);
    } else {
      RefusedIsDropped(p, s, [], hs);
    }
  }

  lemma {:induction false} SwitchChain(p: Params, s: State, fork: nat, hs: seq<MsgHeader>)
    requires ValidParams(p) && ChainOk(p, s) && s.list != [] && hs != [] && Connected(hs)
    requires fork < |s.file| && hs[0].header.prev == HashOf(s.file[fork])
    ensures ChainOk(p, ExtendList(p, Switch(s, s.file[..fork + 1], hs[0].header), [], hs[1..]).1)
  {
    SwitchSafe(p, s, fork, hs[0].header);
    ConnectedTail(hs, 1);
    ExtendListChain(p, Switch(s, s.file[..fork + 1], hs[0].header), hs[1..]);
  }

  /** An accepted branch keeps the store a chain: the list is reset with the store. */
  lemma {:induction false} BranchOffChain(p: Params, s: State, hs: seq<MsgHeader>)
    requires ValidParams(p) && ChainOk(p, s) && s.list != [] && hs != [] && Connected(hs)
    ensures ChainOk(p, BranchOff(p, s, hs).1)
  {
    var parent := hs[0].header.prev;
    BranchOffCases(p, s, hs);
    if parent.HashOf? && parent.header in s.file {
      SwitchChain(p, s, Depth(parent.header), hs);
    }
  }

  lemma {:induction false} PassedRun(file: seq<Header>, b: Header, msg: seq<MsgHeader>)
    ensures var n := Passed(file, b, msg);
      && (forall i :: 0 <= i < n ==>
            msg[i].header.prev != HashOf(b) && (msg[i].header in file || msg[i].header == b))
      && (n < |msg| ==> msg[n].header.prev == HashOf(b) || (msg[n].header !in file && msg[n].header != b))
  {
    if Passed(file, b, msg) != 0 {
      PassedRun(file, b, msg[1..]);
      forall i | 0 <= i < Passed(file, b, msg)
        ensures msg[i].header.prev != HashOf(b) && (msg[i].header in file || msg[i].header == b)
      {
        if i != 0 { assert msg[i] == msg[1..][i - 1]; }
      }
    }
  }

  /** From every state with a chain in the store, whatever the list holds, every message leaves
      the store a chain exactly if it does not graft. */
  lemma {:induction false} ReactChain(p: Params, s: State, msg: seq<MsgHeader>, mayReorg: bool, pipelined: Hash)
    requires ValidParams(p) && ChainOk(p, s) && s.list != []
    ensures var s' := React(p, s, msg, mayReorg, pipelined).1;
      && (IsChain(p.genesis, s'.file) <==> !Grafts(p, s, msg, mayReorg, pipelined))
      && (!Grafts(p, s, msg, mayReorg, pipelined) ==> ChainOk(p, s'))
  {
    var hs := NewHeaders(s, msg);
    ReactCases(p, s, msg, mayReorg, pipelined);
    if Reaches(s, msg, mayReorg, pipelined) {
      if hs[0].header.prev == HashOf(Back(s.list).header) {
        ExtendListChain(p, s, hs);
      } else {
        BranchOffChain(p, s, hs);
      }
    }
  }

  // ---------- heights ----------

  /** Pushing keeps the back of the list at the height its ancestry gives. */
  lemma {:induction false} ExtendListPlaced(p: Params, s: State, batch: seq<Header>, hs: seq<MsgHeader>)
    requires ValidParams(p) && Placed(s.list) && Connected(hs)
    requires hs != [] ==> hs[0].header.prev == HashOf(Back(s.list).header)
    ensures Placed(ExtendList(p, s, batch, hs).1.list)
    decreases |hs|
  {
    if hs == [] {
    } else {
      var h, height := hs[0].header, Back(s.list).height + 1;
      ExtendListFirst(p, s, batch, hs);
      PushBackIs(p, s.list, height, h);
      if !AtCheckpoint(s.next, height) {
        ConnectedTail(hs, 1);
        ExtendListPlaced(p, s.(list := Push(p, s.list, height, h)), batch + [h], hs[1..]);
      }
    }
  }

  lemma {:induction false} ReactPlaced(p: Params, s: State, msg: seq<MsgHeader>, mayReorg: bool, pipelined: Hash)
    requires ValidParams(p) && ChainOk(p, s) && Placed(s.list)
    ensures Placed(React(p, s, msg, mayReorg, pipelined).1.list)
  {
    var hs := NewHeaders(s, msg);
    ReactCases(p, s, msg, mayReorg, pipelined);
    if Reaches(s, msg, mayReorg, pipelined) {
      if hs[0].header.prev == HashOf(Back(s.list).header) {
        ExtendListPlaced(p, s, [], hs);
      } else {
        BranchOffPlaced(p, s, hs);
      }
    }
  }

  lemma {:induction false} BranchOffPlaced(p: Params, s: State, hs: seq<MsgHeader>)
    requires ValidParams(p) && ChainOk(p, s) && Placed(s.list) && hs != [] && Connected(hs)
    ensures Placed(BranchOff(p, s, hs).1.list)
  {
    var parent := hs[0].header.prev;
    BranchOffCases(p, s, hs);
    if parent.HashOf? && parent.header in s.file {
      var fork := Depth(parent.header);
      ConnectedTail(hs, 1);
      ExtendListPlaced(p, Switch(s, s.file[..fork + 1], hs[0].header), [], hs[1..]);
    }
  }
}
