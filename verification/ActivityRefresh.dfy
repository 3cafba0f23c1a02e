/** One refresh of the activity table, from the chain check to the claim of completeness. */
module ActivityRefresh {
  import opened Wrappers
  import opened Arithmetic
  import opened Chain
  import opened ActivityStore
  import opened ActivityCoverage
  import opened ActivityCalm
  import opened ActivityIndex

  // ---------------------------------------------------------------- one refresh

  /** The refresh's own copy of the row agrees with the table, status columns aside. */
  ghost predicate Synced(s: State, store: Store)
    reads store
  {
    CoreOf(Db(s, store.events)) == CoreOf(store.Now())
  }

  /** On a calm chain with everything still ahead in place. */
  ghost predicate CalmState(s: State, c: Branch, limits: Limits, maxEvents: nat) {
    && CalmChain(c, s.deployBlock, limits, maxEvents) && s.reorg != Detected
    && OnBranch(s.cutoff, c) && OnBranch(s.target, c) && OnBranch(s.startAnchor, c)
  }

  /** Commits a page that belongs to a continuation of the cutoff. */
  method CommitScan(store: Store, s: State, end: Anchor, page: seq<Event>) returns (r: Result<State, Error>)
    requires Sound(store) && Synced(s, store)
    requires RealAnchor(end) && PageExact(page, end.blockHash, s.nextBlock) && Continues(s.cutoff, end)
    modifies store
    ensures Sound(store) && old(store.trace) <= store.trace
    ensures r.Ok? <==> Committed(old(store.Now()), s.nextBlock, end, page, store.maxEvents).Ok?
    ensures r.Ok? ==> r.value == store.state == Advanced(old(store.state), end)
    ensures r.Err? ==> store.Now() == old(store.Now())
  {
    SoundNow(store);
    r := store.CommitPage(s.nextBlock, end, page);
    if r.Ok? {
      CommittedFaithful(old(store.Now()), end, page, store.maxEvents);
      StillSound(store);
    }
  }

  /** A calm page scan is always accepted. */
  lemma CalmCommit(db: Db, c: Branch, end: Anchor, page: seq<Event>, logs: seq<RawLog>, limits: Limits, maxEvents: nat)
    requires Consistent(db, maxEvents) && Faithful(db) && CalmState(db.state, c, limits, maxEvents)
    requires RealAnchor(end) && end.blockHash <= c && db.state.target.Some? &&
               db.state.nextBlock <= db.state.target.value.blockNumber
    requires end.blockNumber == PageEnd(db.state.nextBlock, db.state.target.value.blockNumber)
    requires PageExact(page, end.blockHash, db.state.nextBlock) && SameIdentities(page, logs)
    requires logs == LogsBetween(c, db.state.nextBlock, end.blockNumber)
    ensures Committed(db, db.state.nextBlock, end, page, maxEvents).Ok?
    ensures CalmState(Advanced(db.state, end), c, limits, maxEvents)
  {
    assert TimeFits(c[end.blockNumber]);
    var h := Below(db, c, maxEvents);
    PageAccepted(db, h, c, end, page, logs, limits, maxEvents);
  }

  /** On a calm chain the path to the next page's end is clear. */
  lemma CalmPath(db: Db, c: Branch, limits: Limits, maxEvents: nat)
    requires Consistent(db, maxEvents) && Faithful(db) && CalmState(db.state, c, limits, maxEvents)
    requires db.state.target.Some? && db.state.nextBlock <= db.state.target.value.blockNumber
    ensures ClearPath(c, db.state.cutoff, db.state.nextBlock, db.state.target.value, limits)
  {
    CalmRange(c, db.state.deployBlock, limits, maxEvents, db.state.nextBlock,
              PageEnd(db.state.nextBlock, db.state.target.value.blockNumber));
  }

  /** Scans the page after the table's cutoff. */
  method ScanNext(node: Node, store: Store, s: State, limits: Limits)
    returns (r: Result<(Anchor, seq<Event>), Error>, ghost at: nat)
    requires node.Valid() && Sound(store) && Synced(s, store)
    requires s.target.Some? && s.nextBlock <= s.target.value.blockNumber
    modifies node, store
    ensures node.Valid() && Sound(store) && old(store.trace) <= store.trace && Synced(s, store)
    ensures r.Ok? ==> && PageHeld(r.value, s.cutoff, s.nextBlock, PageEnd(s.nextBlock, s.target.value.blockNumber),
                                  node.history, node.mark, at)
                      && (r.value.0.blockNumber == s.target.value.blockNumber ==> r.value.0 == s.target.value)
    ensures node.calm ==> node.branch == old(node.branch) && store.Now() == old(store.Now())
    ensures node.calm && CalmState(store.state, node.branch, limits, store.maxEvents) ==>
              && r.Ok? && Committed(store.Now(), s.nextBlock, r.value.0, r.value.1, store.maxEvents).Ok?
              && CalmState(Advanced(store.state, r.value.0), node.branch, limits, store.maxEvents)
  {
    SoundNow(store);
    if node.calm && CalmState(store.state, node.branch, limits, store.maxEvents) {
      CalmPath(store.Now(), node.branch, limits, store.maxEvents);
    }
    ghost var logs;
    r, logs, at := ScanPage(node, store, s.cutoff, s.nextBlock, s.target.value, limits);
    if node.calm && CalmState(store.state, node.branch, limits, store.maxEvents) {
      SoundNow(store);
      CalmCommit(store.Now(), node.branch, r.value.0, r.value.1, logs, limits, store.maxEvents);
    }
  }

  /** Scans the next page and commits it; nothing is awaited between the last check and the commit. */
  method PageStep(node: Node, store: Store, s: State, limits: Limits) returns (r: Result<State, Error>, ghost at: nat)
    requires node.Valid() && Sound(store) && Synced(s, store)
    requires s.target.Some? && s.nextBlock <= s.target.value.blockNumber
    modifies node, store
    ensures node.Valid() && Sound(store) && old(store.trace) <= store.trace
    ensures r.Ok? ==> && r.value == store.state && r.value.target == s.target && r.value.startAnchor == s.startAnchor
                      && r.value.deployBlock == s.deployBlock
                      && r.value.nextBlock == PageEnd(s.nextBlock, s.target.value.blockNumber) + 1
                      && (r.value.nextBlock > s.target.value.blockNumber ==>
                            CanonicalAt(s.target.value.blockHash, node.history, node.mark, at))
    ensures node.calm ==> node.branch == old(node.branch)
    ensures node.calm && old(CalmState(store.state, node.branch, limits, store.maxEvents)) ==>
              r.Ok? && CalmState(r.value, node.branch, limits, store.maxEvents)
  {
    var scan;
    scan, at := ScanNext(node, store, s, limits);
    if scan.Err? { return Err(scan.error), at; }
    r := CommitScan(store, s, scan.value.0, scan.value.1);
  }

  /** The next block after at most w pages from `next`. */
  function NextAfter(next: nat, target: nat, w: nat): nat {
    if next > target then next else if next + PAGE * w < target + 1 then next + PAGE * w else target + 1
  }

  /** As many pages as one refresh may scan. */
  method ScanPages(node: Node, store: Store, s: State, limits: Limits, ghost from: nat)
    returns (r: Result<State, Error>, ghost at: nat)
    requires node.Valid() && Sound(store) && Synced(s, store) && s.target.Some?
    requires s.nextBlock > s.target.value.blockNumber ==>
               CanonicalAt(s.target.value.blockHash, node.history, node.mark, from)
    modifies node, store
    ensures node.Valid() && Sound(store) && old(store.trace) <= store.trace
    ensures r.Ok? ==> && Synced(r.value, store) && r.value.target == s.target && r.value.startAnchor == s.startAnchor
                      && r.value.deployBlock == s.deployBlock
                      && r.value.nextBlock == NextAfter(s.nextBlock, s.target.value.blockNumber, limits.maxWindows)
                      && (r.value.nextBlock > s.target.value.blockNumber ==>
                            CanonicalAt(s.target.value.blockHash, node.history, node.mark, at))
    ensures node.calm ==> node.branch == old(node.branch)
    ensures node.calm && old(CalmState(store.state, node.branch, limits, store.maxEvents)) ==>
              r.Ok? && CalmState(store.state, node.branch, limits, store.maxEvents)
  {
    var state := s;
    at := from;
    var windows := 0;
    while state.nextBlock <= s.target.value.blockNumber && windows < limits.maxWindows
      invariant node.Valid() && Sound(store) && old(store.trace) <= store.trace
      invariant Synced(state, store) && state.target == s.target && state.startAnchor == s.startAnchor
      invariant state.deployBlock == s.deployBlock && windows <= limits.maxWindows
      invariant state.nextBlock > s.target.value.blockNumber ==>
                  CanonicalAt(s.target.value.blockHash, node.history, node.mark, at)
      invariant node.calm ==> node.branch == old(node.branch)
      invariant state.nextBlock == NextAfter(s.nextBlock, s.target.value.blockNumber, windows)
      invariant node.calm && old(CalmState(store.state, node.branch, limits, store.maxEvents)) ==>
                  CalmState(store.state, node.branch, limits, store.maxEvents)
      decreases limits.maxWindows - windows
    {
      var next;
      next, at := PageStep(node, store, state, limits);
      if next.Err? { return Err(next.error), at; }
      state := next.value;
      windows := windows + 1;
    }
    r := Ok(state);
  }

  // ---------------------------------------------------------------- the end of a refresh

  function CompleteState(s: State, target: Anchor, now: nat): Result<State, Error> {
    if s.reorg == Detected || s.target != Some(target) then Err(ReorgSeen)
    else Ok(s.(coverage := Complete, reason := None, lastValidatedAt := Some(now), reorg := Clear))
  }

  method FetchNextDemandId(node: Node, store: Store, n: nat) returns (r: Result<nat, Error>)
    requires node.Valid() && Sound(store)
    modifies node`branch, node`history, node`answers, store
    ensures node.Valid() && node.history == old(node.history) + [node.branch]
    ensures Sound(store) && old(store.trace) <= store.trace && CoreOf(store.Now()) == old(CoreOf(store.Now()))
    ensures r.Ok? ==> n < |node.branch| && r.value == |node.branch[n].demands| + 1
    ensures node.calm ==>
              node.branch == old(node.branch) && store.Now() == old(store.Now()) && (n < |node.branch| ==> r.Ok?)
  {
    Interfere(store, node.calm);
    var id := node.ReadNextDemandId(n);
    r := if id.Ok? then Ok(id.value) else Err(RpcFailed);
  }

  /** The created ids are checked against the contract's counter. */
  predicate CountAgrees(rows: seq<Event>, next: nat, limits: Limits) {
    next >= 1 && next - 1 <= limits.maxDemands && CreationsCheck(CreatedIds(rows), next)
  }

  /** Reads the counter and compares it with the stored creations. */
  method CountCreations(node: Node, store: Store, target: Anchor, limits: Limits)
    returns (r: Result<bool, Error>)
    requires node.Valid() && Sound(store)
    modifies node`branch, node`history, node`answers, store
    ensures node.Valid() && node.history == old(node.history) + [node.branch]
    ensures Sound(store) && old(store.trace) <= store.trace && CoreOf(store.Now()) == old(CoreOf(store.Now()))
    ensures r == Ok(true) ==> target.blockNumber < |node.branch| &&
                              CreationsAre(store.events, |node.branch[target.blockNumber].demands|)
    ensures node.calm ==> node.branch == old(node.branch) && store.Now() == old(store.Now())
    ensures node.calm && CountedAt(store.events, node.branch, target.blockNumber, limits) ==> r == Ok(true)
  {
    var next :- FetchNextDemandId(node, store, target.blockNumber);
    var rows := store.Events();
    r := Ok(CountAgrees(rows, next, limits));
    if r == Ok(true) {
      CheckedCreations(rows, store.events, next);
    }
    if CountsUp(store.events, next - 1, limits) {
      CountedCreations(rows, store.events, next);
    }
  }

  ghost predicate CountedAt(rows: map<Identity, Event>, c: Branch, n: nat, limits: Limits) {
    n < |c| && CountsUp(rows, |c[n].demands|, limits)
  }

  ghost predicate CountsUp(rows: map<Identity, Event>, count: nat, limits: Limits) {
    CreationsAre(rows, count) && count <= limits.maxDemands
  }

  /** The first block and the target were canonical together. */
  lemma Together(seen: seq<Branch>, last: Branch, mark: nat, at: nat, start: Anchor, target: Anchor)
    requires |seen| > 0 && NoReinstatement(seen + [last], mark) && CanonicalAt(target.blockHash, seen, mark, at)
    requires start.blockHash <= seen[|seen| - 1] && target.blockHash <= last
    requires |start.blockHash| <= |target.blockHash|
    ensures start.blockHash <= target.blockHash
  {
    var all := seen + [last];
    Between(all, mark, at, |seen| - 1, |seen|, target.blockHash);
    OneChain(seen[|seen| - 1], start.blockHash, target.blockHash);
  }

  /** What the checks at the end of a refresh establish. */
  ghost predicate ReadyToComplete(s: State, rows: map<Identity, Event>) {
    && s.startAnchor.Some? && s.target.Some? && RealAnchor(s.target.value)
    && s.startAnchor.value.blockHash <= s.target.value.blockHash
    && CreationsAre(rows, |s.target.value.blockHash[s.target.value.blockNumber].demands|)
  }

  /** The first block, then the target, still canonical. */
  method CheckAnchors(node: Node, store: Store, s: State, ghost at: nat) returns (r: Result<(), Error>)
    requires node.Valid() && Sound(store) && Synced(s, store) && s.target.Some?
    requires CanonicalAt(s.target.value.blockHash, node.history, node.mark, at)
    modifies node`branch, node`history, node`answers, store
    ensures node.Valid() && old(node.history) <= node.history
    ensures Sound(store) && old(store.trace) <= store.trace && CoreOf(store.Now()) == old(CoreOf(store.Now()))
    ensures r.Ok? ==> s.startAnchor.Some? && s.startAnchor.value.blockHash <= s.target.value.blockHash <= node.branch
                      && |node.history| > old(|node.history|)
    ensures node.calm ==> node.branch == old(node.branch) && store.Now() == old(store.Now())
    ensures node.calm && s.startAnchor.Some? && OnBranch(s.startAnchor, node.branch) &&
              OnBranch(s.target, node.branch) ==>
              r.Ok?
  {
    AnchorsReal(store, s);
    if s.startAnchor.None? { return Err(ReorgSeen); }
    var first :- Pinned(node, store, s.startAnchor.value);
    if !first { return Err(ReorgSeen); }
    ghost var seen := node.history;
    var last :- Pinned(node, store, s.target.value);
    if !last { return Err(ReorgSeen); }
    Together(seen, node.branch, node.mark, at, s.startAnchor.value, s.target.value);
    r := Ok(());
  }

  lemma AnchorsReal(store: Store, s: State)
    requires Sound(store) && Synced(s, store) && s.target.Some?
    ensures RealAnchor(s.target.value)
    ensures s.startAnchor.Some? ==> RealAnchor(s.startAnchor.value) &&
                                    |s.startAnchor.value.blockHash| <= |s.target.value.blockHash|
  {
    SoundNow(store);
  }

  /** The counter was read on a branch through the target. */
  lemma CountedOnTarget(history: seq<Branch>, mark: nat, at: nat, counted: nat, target: Anchor)
    requires NoReinstatement(history, mark) && CanonicalAt(target.blockHash, history, mark, at)
    requires at <= counted < |history| && target.blockHash <= history[|history| - 1]
    requires RealAnchor(target)
    ensures target.blockNumber < |history[counted]|
    ensures history[counted][target.blockNumber] == target.blockHash[target.blockNumber]
  {
    Between(history, mark, at, counted, |history| - 1, target.blockHash);
  }

  /** The remote checks at the end of a refresh: Ok(false) is a coverage mismatch. */
  method CheckCoverage(node: Node, store: Store, s: State, limits: Limits, ghost at: nat)
    returns (r: Result<bool, Error>)
    requires node.Valid() && Sound(store) && Synced(s, store) && s.target.Some?
    requires CanonicalAt(s.target.value.blockHash, node.history, node.mark, at)
    modifies node`branch, node`history, node`answers, store
    ensures node.Valid() && Sound(store) && old(store.trace) <= store.trace &&
              CoreOf(store.Now()) == old(CoreOf(store.Now()))
    ensures r == Ok(true) ==> ReadyToComplete(s, store.events)
    ensures node.calm ==> node.branch == old(node.branch) && store.Now() == old(store.Now())
    ensures node.calm && CalmEnd(s, node.branch) &&
              CountedAt(store.events, node.branch, s.target.value.blockNumber, limits) ==>
              r == Ok(true)
  {
    SoundNow(store);
    var target := s.target.value;
    var counted :- CountCreations(node, store, target, limits);
    if !counted { return Ok(false); }
    ghost var seen := node.history;
    var _ :- CheckAnchors(node, store, s, at);
    assert node.history[|seen| - 1] == seen[|seen| - 1];
    CountedOnTarget(node.history, node.mark, at, |seen| - 1, target);
    r := Ok(true);
  }

  ghost predicate CalmEnd(s: State, c: Branch) {
    s.startAnchor.Some? && OnBranch(s.startAnchor, c) && OnBranch(s.target, c)
  }

  /** Marks the table complete, unless another task saw a reorganisation. */
  method MarkComplete(store: Store, s: State, now: nat) returns (r: Result<State, Error>)
    requires Sound(store) && Synced(s, store) && ReadyToComplete(s, store.events)
    modifies store
    ensures Sound(store) && old(store.trace) <= store.trace && CoreOf(store.Now()) == old(CoreOf(store.Now()))
    ensures r.Ok? ==> store.state.coverage == Complete
    ensures r.Ok? <==> old(store.state).reorg != Detected && s.cutoff == s.target
  {
    SoundNow(store);
    var target := s.target.value;
    r := store.UpdateState(s.nextBlock, current => CompleteState(current, target, now));
    if r.Ok? {
      StatusFaithful(old(store.Now()), store.Now());
      StillSound(store);
    }
  }

  /** The last part of a refresh, once the target is reached. */
  method Finish(node: Node, store: Store, s: State, limits: Limits, ghost at: nat) returns (r: Result<(), Error>)
    requires node.Valid() && Sound(store) && Synced(s, store) && s.target.Some?
    requires CanonicalAt(s.target.value.blockHash, node.history, node.mark, at)
    modifies node`branch, node`history, node`answers, store
    ensures node.Valid() && Sound(store) && old(store.trace) <= store.trace &&
              CoreOf(store.Now()) == old(CoreOf(store.Now()))
    ensures node.calm ==> node.branch == old(node.branch)
    ensures r.Ok? ==> store.state.coverage == Complete || store.state.reason == Some(CoverageMismatch)
    ensures node.calm && CalmEnd(s, node.branch) &&
              CountedAt(store.events, node.branch, s.target.value.blockNumber, limits) &&
              s.cutoff == s.target && old(store.state).reorg != Detected ==>
              r.Ok? && store.state.coverage == Complete
  {
    var _ :- Check(node.calm);
    var agrees :- CheckCoverage(node, store, s, limits, at);
    if !agrees {
      SetFailure(store, CoverageMismatch);
      return Ok(());
    }
    var _ :- Check(node.calm);
    var now: nat := *;
    var _ :- MarkComplete(store, s, now);
    r := Ok(());
  }

  // ---------------------------------------------------------------- the start of a refresh

  method FetchChainId(node: Node, store: Store) returns (r: Result<nat, Error>)
    requires node.Valid() && Sound(store)
    modifies node`branch, node`history, node`answers, store
    ensures node.Valid() && old(node.history) <= node.history
    ensures Sound(store) && old(store.trace) <= store.trace && CoreOf(store.Now()) == old(CoreOf(store.Now()))
    ensures if r.Ok? then r.value == node.chainId else r.error == RpcFailed
    ensures node.calm ==> node.branch == old(node.branch) && store.Now() == old(store.Now()) && r.Ok?
  {
    Interfere(store, node.calm);
    var id := node.GetChainId();
    r := if id.Ok? then Ok(id.value) else Err(RpcFailed);
  }

  /** The node has stopped changing, and it is a node of the table's chain. */
  predicate Quiet(node: Node, store: Store) {
    node.calm && node.chainId == store.chainId
  }

  ghost predicate Emptied(s: State) {
    && s.nextBlock == s.deployBlock && s.reorg == Rebuilding && s.coverage == Coverage.Unavailable
    && s.cutoff.None? && s.target.None? && s.startAnchor.None?
  }

  /** Nothing is left but the promise to rebuild. */
  ghost predicate Cleared(db: Db) {
    db.events == map[] && Emptied(db.state)
  }

  /** The state a refresh works on: that of the table, emptied first if a reorganisation was detected. */
  ghost predicate BeginsAs(s: State, begun: State) {
    if s.reorg == Detected then Emptied(begun) && begun.deployBlock == s.deployBlock else begun == s
  }

  method ResetTable(store: Store)
    requires Sound(store)
    modifies store
    ensures Sound(store) && old(store.trace) <= store.trace
    ensures Cleared(store.Now()) && exists at :: store.Now() == Reset(old(store.Now()), at)
  {
    var at: nat := *;
    ResetFaithful(store.Now(), at);
    store.ResetForReorg(at);
    StillSound(store);
  }

  /** The first block a refresh scans. */
  function FirstNext(s: State): nat {
    if s.reorg == Detected then s.deployBlock else s.nextBlock
  }

  /** The chain is the right one; a detected reorganisation restarts the table. */
  method Begin(node: Node, store: Store) returns (r: Result<State, Error>)
    requires node.Valid() && Sound(store)
    modifies node`branch, node`history, node`answers, store
    ensures node.Valid() && Sound(store) && old(store.trace) <= store.trace && old(node.history) <= node.history
    ensures r.Ok? ==>
              && node.chainId == store.chainId && Synced(r.value, store)
              && r.value.nextBlock == FirstNext(old(store.state))
                      && (old(store.state).reorg == Detected ==> Cleared(store.Now()))
    ensures node.calm ==> node.branch == old(node.branch)
    ensures Quiet(node, store) ==> r == Ok(store.state) && BeginsAs(old(store.state), store.state)
  {
    var state := store.state;
    var id :- FetchChainId(node, store);
    if id != state.chainId { return Err(ChainMismatch); }
    if state.reorg == Detected {
      ResetTable(store);
      state := store.state;
    }
    r := Ok(state);
  }

  function WithStart(s: State, start: Anchor): Result<State, Error> {
    Ok(s.(startAnchor := Some(start)))
  }

  method RecordStart(store: Store, s: State, start: Anchor) returns (r: Result<State, Error>)
    requires Sound(store) && Synced(s, store) && RealAnchor(start) && s.startAnchor.None?
    modifies store
    ensures Sound(store) && old(store.trace) <= store.trace
    ensures r.Ok? ==>
              r.value == store.state == old(store.state).(startAnchor := Some(start)) &&
                store.events == old(store.events)
    ensures AnchorValid(Some(start)) && start.blockNumber == s.deployBlock ==> r.Ok?
  {
    SoundNow(store);
    r := store.UpdateState(s.nextBlock, current => WithStart(current, start));
    if r.Ok? {
      StillSound(store);
    }
  }

  /** The first block is recorded once and must stay canonical. Ok(None): the table was reset. */
  method FixStart(node: Node, store: Store, s: State) returns (r: Result<Option<State>, Error>)
    requires node.Valid() && Sound(store) && Synced(s, store)
    modifies node`branch, node`history, node`answers, store
    ensures node.Valid() && Sound(store) && old(store.trace) <= store.trace && old(node.history) <= node.history
    ensures r.Ok? && r.value.Some? ==> Synced(r.value.value, store) && OnlyStartDiffers(s, r.value.value)
    ensures r.Ok? && r.value.None? ==> s.startAnchor.Some? && Cleared(store.Now())
    ensures r.Ok? && r.value.Some? ==>
              r.value.value.startAnchor.Some? && OnBranch(r.value.value.startAnchor, node.branch)
                                       && (s.startAnchor.Some? ==> r.value.value == s)
    ensures node.calm ==> node.branch == old(node.branch)
    ensures node.calm && s == old(store.state) && StartRoom(s.deployBlock, node.branch) ==>
              if OnBranch(s.startAnchor, node.branch)
              then && r == Ok(Some(store.state)) && CalmStart(store.state, node.branch)
                   && store.state == old(store.state).(startAnchor := store.state.startAnchor)
              else r == Ok(None) && store.state.deployBlock == s.deployBlock
  {
    SoundNow(store);
    if s.startAnchor.None? {
      var first :- FetchBlock(node, store, s.deployBlock);
      var next :- RecordStart(store, s, AnchorOf(first));
      return Ok(Some(next));
    }
    var canonical :- Pinned(node, store, s.startAnchor.value);
    if !canonical {
      ResetTable(store);
      return Ok(None);
    }
    r := Ok(Some(s));
  }

  ghost predicate OnlyStartDiffers(s: State, s': State) {
    s'.deployBlock == s.deployBlock && s'.nextBlock == s.nextBlock && s'.cutoff == s.cutoff && s'.target == s.target
  }

  ghost predicate CalmStart(s: State, c: Branch) {
    s.startAnchor.Some? && OnBranch(s.startAnchor, c)
  }

  ghost predicate StartRoom(deployBlock: nat, c: Branch) {
    deployBlock < |c| < TWO64 && forall n | 0 <= n < |c| :: TimeFits(c[n])
  }

  /** An anchor at or below the head that is still canonical; Ok(false) asks for a reset. */
  method StillCanonical(node: Node, store: Store, a: Option<Anchor>, head: Anchor) returns (r: Result<bool, Error>)
    requires node.Valid() && Sound(store) && (a.Some? ==> RealAnchor(a.value))
    modifies node`branch, node`history, node`answers, store
    ensures node.Valid() && old(node.history) <= node.history
    ensures Sound(store) && old(store.trace) <= store.trace && CoreOf(store.Now()) == old(CoreOf(store.Now()))
    ensures r == Ok(true) ==> OnBranch(a, node.branch) && AtOrBelow(a, head)
    ensures node.calm ==> node.branch == old(node.branch) && store.Now() == old(store.Now())
    ensures node.calm && head.blockNumber == |node.branch| - 1 ==> r == Ok(OnBranch(a, node.branch))
  {
    if a.None? { return Ok(true); }
    if head.blockNumber < a.value.blockNumber { return Ok(false); }
    r := Pinned(node, store, a.value);
  }

  predicate AtOrBelow(a: Option<Anchor>, head: Anchor) {
    a.Some? ==> a.value.blockNumber <= head.blockNumber
  }

  function Retargeted(s: State, head: Anchor): State {
    s.(target := Some(head), coverage := Partial, reason := Some(BackfillIncomplete), lastValidatedAt := None)
  }

  function FirstTargeted(s: State, head: Anchor): State {
    s.(target := Some(head), coverage := if s.cutoff.Some? then Partial else Coverage.Unavailable,
       reason := Some(if s.reorg == Rebuilding then ReorgRebuild else BackfillIncomplete))
  }

  /** A finished target moves to a higher head; a missing target becomes the head; otherwise it stays frozen. */
  predicate Moves(s: State, head: Anchor) {
    s.target.None? || (s.coverage == Complete && head.blockNumber > s.target.value.blockNumber)
  }

  method SetTarget(store: Store, s: State, head: Anchor) returns (r: Result<State, Error>)
    requires Sound(store) && Synced(s, store) && RealAnchor(head) && Moves(s, head)
    modifies store
    ensures Sound(store) && old(store.trace) <= store.trace
    ensures r.Ok? ==> && Synced(r.value, store) && r.value == store.state
                      && OnlyTargetDiffers(s, r.value) && r.value.target == Some(head)
                      && r.value.reorg == old(store.state).reorg
                      && r.value.coverage ==
                          (if s.target.Some? || s.cutoff.Some? then Partial else Coverage.Unavailable)
                      && r.value.reason == Some(if s.target.None? && r.value.reorg ==
                                                Rebuilding then ReorgRebuild else BackfillIncomplete)
    ensures AnchorValid(Some(head)) && s.deployBlock <= head.blockNumber ==> r.Ok?
  {
    SoundNow(store);
    if s.target.Some? {
      r := store.UpdateState(s.nextBlock, current => Ok(Retargeted(current, head)));
    } else {
      r := store.UpdateState(s.nextBlock, current => Ok(FirstTargeted(current, head)));
    }
    if r.Ok? {
      StillSound(store);
    }
  }

  ghost predicate OnlyTargetDiffers(s: State, s': State) {
    s'.deployBlock == s.deployBlock && s'.nextBlock == s.nextBlock && s'.cutoff == s.cutoff &&
      s'.startAnchor == s.startAnchor
  }

  /** The anchor was canonical at one of these instants. */
  ghost predicate SeenOn(a: Option<Anchor>, instants: seq<Branch>) {
    exists i :: 0 <= i < |instants| && OnBranch(a, instants[i])
  }

  /** Both anchors are still canonical, the target last. */
  method CheckPath(node: Node, store: Store, s: State, head: Anchor) returns (r: Result<bool, Error>)
    requires node.Valid() && Sound(store) && Synced(s, store)
    modifies node`branch, node`history, node`answers, store
    ensures node.Valid() && old(node.history) <= node.history
    ensures Sound(store) && old(store.trace) <= store.trace && CoreOf(store.Now()) == old(CoreOf(store.Now()))
    ensures r == Ok(true) ==>
              && OnBranch(s.target, node.branch) && AtOrBelow(s.cutoff, head) && AtOrBelow(s.target, head)
                              && SeenOn(s.cutoff, [old(node.branch)] + node.history[old(|node.history|)..])
    ensures node.calm ==> node.branch == old(node.branch) && store.Now() == old(store.Now())
    ensures node.calm && head.blockNumber == |node.branch| - 1 ==>
              r == Ok(OnBranch(s.cutoff, node.branch) && OnBranch(s.target, node.branch))
  {
    SoundNow(store);
    var below :- StillCanonical(node, store, s.cutoff, head);
    if !below { return Ok(false); }
    ghost var seen := node.history;
    ghost var instants := [old(node.branch)] + seen[old(|node.history|)..];
    assert instants[|instants| - 1] == node.branch && OnBranch(s.cutoff, instants[|instants| - 1]);
    r := StillCanonical(node, store, s.target, head);
    assert instants <= [old(node.branch)] + node.history[old(|node.history|)..];
  }

  /** Ok(None): the table was reset. Otherwise the target was canonical at `at`. */
  method FixTarget(node: Node, store: Store, s: State, head: Anchor, ghost headAt: nat)
    returns (r: Result<Option<State>, Error>, ghost at: nat)
    requires node.Valid() && Sound(store) && Synced(s, store) && RealAnchor(head)
    requires CanonicalAt(head.blockHash, node.history, node.mark, headAt)
    modifies node`branch, node`history, node`answers, store
    ensures node.Valid() && Sound(store) && old(store.trace) <= store.trace && old(node.history) <= node.history
    ensures r.Ok? && r.value.Some? ==>
              && Synced(r.value.value, store) && OnlyTargetDiffers(s, r.value.value) && r.value.value.target.Some?
              && CanonicalAt(r.value.value.target.value.blockHash, node.history, node.mark, at)
              && r.value.value.target == (if Moves(s, head) then Some(head) else s.target)
              && AtOrBelow(s.cutoff, head) && AtOrBelow(s.target, head)
              && SeenOn(s.cutoff, [old(node.branch)] + node.history[old(|node.history|)..])
    ensures r.Ok? && r.value.None? ==> Cleared(store.Now())
    ensures node.calm ==> node.branch == old(node.branch)
    ensures node.calm && s == old(store.state) && head.blockNumber == |node.branch| - 1 &&
              s.deployBlock <= head.blockNumber && AnchorValid(Some(head)) ==>
              if OnBranch(s.cutoff, node.branch) && OnBranch(s.target, node.branch)
              then r == Ok(Some(store.state)) && store.state.reorg == s.reorg
              else r == Ok(None) && store.state.deployBlock == s.deployBlock
  {
    at := headAt;
    var canonical := CheckPath(node, store, s, head);
    if canonical.Err? { return Err(canonical.error), at; }
    if !canonical.value {
      ResetTable(store);
      return Ok(None), at;
    }
    if Moves(s, head) {
      var next := SetTarget(store, s, head);
      r := if next.Ok? then Ok(Some(next.value)) else Err(next.error);
    } else {
      at := |node.history| - 1;
      r := Ok(Some(s));
    }
  }

  // ---------------------------------------------------------------- the refresh

  /** Up to and including block n the branch has one creation per demand and no other creation. */
  ghost predicate CreationsOnce(c: Branch, deploy: nat, n: nat) {
    && n < |c|
    && (forall m, l | deploy <= m <= n && LogAt(c, m, l) && l.name == CREATED ::
          l.demandId.Some? && 1 <= l.demandId.value <= |c[n].demands|)
    && (forall id | 1 <= id <= |c[n].demands| :: HasCreationLog(c, deploy, n, id))
    && (forall m, l, m', l' | CreationLog(c, deploy, n, m, l) && CreationLog(c, deploy, n, m', l') &&
                              l.demandId == l'.demandId :: m == m' && l == l')
  }

  ghost predicate CreationLog(c: Branch, deploy: nat, n: nat, m: nat, l: Log) {
    deploy <= m <= n && LogAt(c, m, l) && l.name == CREATED
  }

  ghost predicate HasCreationLog(c: Branch, deploy: nat, n: nat, id: nat) {
    exists m, l :: CreationLog(c, deploy, n, m, l) && l.demandId == Some(id)
  }

  lemma CreationRow(rows: map<Identity, Event>, c: Branch, h: Hash, deploy: nat, k: Identity) returns (m: nat, l: Log)
    requires Exact(rows, h, deploy) && h <= c && |h| > 0 && k in rows && rows[k].name == CREATED
    requires IdentityOf(rows[k]) == k
    ensures CreationLog(c, deploy, |h| - 1, m, l) && l.demandId == rows[k].demandId &&
              k == Identity(l.txHash, l.logIndex)
  {
    assert Belongs(rows[k], h, deploy);
    m := rows[k].blockNumber;
    l :| LogAt(h, m, l) && l.strict && rows[k] == ActivityCoverage.RowOf(h[..m + 1], l);
    assert LogAt(c, m, l);
  }

  lemma CreationsOnBranch(rows: map<Identity, Event>, c: Branch, h: Hash, deploy: nat)
    requires Exact(rows, h, deploy) && h <= c && |h| > 0 && CreationsOnce(c, deploy, |h| - 1)
    requires KeyedByIdentity(rows)
    ensures CreationsAre(rows, |c[|h| - 1].demands|)
  {
    var n := |h| - 1;
    forall k | k in rows && rows[k].name == CREATED
      ensures rows[k].demandId.Some? && 1 <= rows[k].demandId.value <= |c[n].demands|
    {
      var m, l := CreationRow(rows, c, h, deploy, k);
    }
    forall id | 1 <= id <= |c[n].demands| ensures HasCreation(rows, id) {
      assert HasCreationLog(c, deploy, n, id);
      var m, l :| CreationLog(c, deploy, n, m, l) && l.demandId == Some(id);
      assert LogAt(h, m, l);
      assert Covered(rows, h, m, l);
      assert IsCreation(rows, Identity(l.txHash, l.logIndex), id);
    }
    forall k, k', id | IsCreation(rows, k, id) && IsCreation(rows, k', id) ensures k == k' {
      var m, l := CreationRow(rows, c, h, deploy, k);
      var m', l' := CreationRow(rows, c, h, deploy, k');
    }
  }

  /** The height a refresh of a calm chain works towards. */
  function Goal(s: State, c: Branch): nat {
    if s.reorg == Detected || s.target.None? || (s.coverage == Complete && |c| - 1 > s.target.value.blockNumber)
    then |c| - 1
    else s.target.value.blockNumber
  }

  /** A chain that has stopped changing, with room, good logs and consistent creations. */
  ghost predicate ChainReady(deployBlock: nat, c: Branch, limits: Limits, maxEvents: nat) {
    && CalmChain(c, deployBlock, limits, maxEvents) && deployBlock < |c|
    && (forall n | deployBlock <= n < |c| :: CreationsOnce(c, deployBlock, n) && |c[n].demands| <= limits.maxDemands)
  }

  /** Some block the table relies on is not on the chain, and nobody has noticed yet. */
  ghost predicate Lost(s: State, c: Branch) {
    s.reorg != Detected && !(OnBranch(s.startAnchor, c) && OnBranch(s.cutoff, c) && OnBranch(s.target, c))
  }

  /** Such a chain, with all blocks that the table relies on. */
  ghost predicate CalmReady(s: State, c: Branch, limits: Limits, maxEvents: nat) {
    ChainReady(s.deployBlock, c, limits, maxEvents) && !Lost(s, c) && s.reorg != Detected
  }

  lemma CalmReadyState(s: State, c: Branch, limits: Limits, maxEvents: nat)
    requires CalmReady(s, c, limits, maxEvents)
    ensures CalmState(s, c, limits, maxEvents)
  {
  }

  lemma CalmFinish(db: Db, c: Branch, limits: Limits, maxEvents: nat)
    requires Consistent(db, maxEvents) && Faithful(db) && CalmReady(db.state, c, limits, maxEvents)
    requires db.state.target.Some? && db.state.nextBlock > db.state.target.value.blockNumber
    ensures db.state.cutoff == db.state.target && CountedAt(db.events, c, db.state.target.value.blockNumber, limits)
  {
    SameAnchor(c, db.state.cutoff.value, db.state.target.value);
    var n := db.state.target.value.blockNumber;
    assert CreationsOnce(c, db.state.deployBlock, n);
    CreationsOnBranch(db.events, c, db.state.cutoff.value.blockHash, db.state.deployBlock);
  }

  /** The head, at or above the deploy block. */
  method ReadHead(node: Node, store: Store, deployBlock: nat) returns (r: Result<Anchor, Error>)
    requires node.Valid() && Sound(store)
    modifies node`branch, node`history, node`answers, store
    ensures node.Valid() && old(node.history) <= node.history
    ensures Sound(store) && old(store.trace) <= store.trace && CoreOf(store.Now()) == old(CoreOf(store.Now()))
    ensures r.Ok? ==>
              && RealAnchor(r.value) && r.value.blockHash <= node.branch && r.value.blockNumber == |node.branch| - 1
                      && deployBlock <= r.value.blockNumber
    ensures node.calm ==> node.branch == old(node.branch) && store.Now() == old(store.Now())
    ensures node.calm && deployBlock < |node.branch| ==> r.Ok?
  {
    var _ :- Check(node.calm);
    var head :- FetchHead(node, store);
    var _ :- Check(node.calm);
    if head.number < deployBlock { return Err(RpcFailed); }
    r := Ok(AnchorOf(head));
  }

  /** The start of a scan: the right chain, and a head. */
  method ReadTop(node: Node, store: Store) returns (r: Result<(State, Anchor), Error>)
    requires node.Valid() && Sound(store)
    modifies node, store
    ensures node.Valid() && Sound(store) && old(store.trace) <= store.trace
    ensures r.Ok? ==> && Synced(r.value.0, store) && RealAnchor(r.value.1)
                      && CanonicalAt(r.value.1.blockHash, node.history, node.mark, |node.history| - 1)
                      && node.chainId == store.chainId && r.value.0.nextBlock == FirstNext(old(store.state))
    ensures node.calm ==> node.branch == old(node.branch)
    ensures Quiet(node, store) && old(store.state.deployBlock) < |node.branch| ==>
              && r.Ok? && r.value.0 == store.state && BeginsAs(old(store.state), store.state)
              && r.value.1.blockNumber == |node.branch| - 1 && r.value.1.blockHash <= node.branch
  {
    node.BeginScan();
    var begun :- Begin(node, store);
    var head :- ReadHead(node, store, begun.deployBlock);
    r := Ok((begun, head));
  }

  /** Where a refresh starts: the right chain, a head, and the first block; `begun` is the state it works on.
      Ok(None): the table was reset. */
  method ReadStart(node: Node, store: Store)
    returns (r: Result<Option<(State, Anchor)>, Error>, ghost at: nat, ghost begun: State)
    requires node.Valid() && Sound(store)
    modifies node, store
    ensures node.Valid() && Sound(store) && old(store.trace) <= store.trace
    ensures r.Ok? && r.value.Some? ==>
              && Synced(r.value.value.0, store) && RealAnchor(r.value.value.1)
              && CanonicalAt(r.value.value.1.blockHash, node.history, node.mark, at)
              && r.value.value.0.nextBlock == FirstNext(old(store.state))
    ensures r.Ok? ==> node.chainId == store.chainId && (r.value.None? ==> Cleared(store.Now()))
    ensures node.calm ==> node.branch == old(node.branch)
    ensures Quiet(node, store) && StartRoom(old(store.state.deployBlock), node.branch) ==>
              && r.Ok? && BeginsAs(old(store.state), begun)
              && if OnBranch(begun.startAnchor, node.branch)
                 then r.value.Some? && r.value.value.0 == store.state &&
                      StartedOn(begun, store.state, r.value.value.1, node.branch)
                 else r.value.None? && store.state.deployBlock == begun.deployBlock
  {
    at, begun := 0, store.state;
    var top := ReadTop(node, store);
    if top.Err? { return Err(top.error), at, begun; }
    at, begun := |node.history| - 1, store.state;
    ghost var seen := node.history;
    var started := FixStart(node, store, top.value.0);
    if started.Err? { return Err(started.error), at, begun; }
    assert node.history[at] == seen[at];
    r := Ok(if started.value.None? then None else Some((started.value.value, top.value.1)));
  }

  /** A started refresh has the first block and the head of the chain. */
  ghost predicate StartedOn(first: State, s: State, head: Anchor, c: Branch) {
    && CalmStart(s, c) && s == first.(startAnchor := s.startAnchor)
    && head.blockNumber == |c| - 1 && head.blockHash <= c
  }

  ghost predicate CalmStarted(s: State, c: Branch, limits: Limits, maxEvents: nat) {
    CalmReady(s, c, limits, maxEvents) && CalmStart(s, c)
  }

  lemma CalmTargeted(first: State, started: State, s: State, head: Anchor, c: Branch, limits: Limits, maxEvents: nat)
    requires CalmBegun(first, started, head, c, limits, maxEvents)
    requires OnBranch(started.cutoff, c) && OnBranch(started.target, c)
    requires OnlyTargetDiffers(started, s) && s.reorg == started.reorg
    requires s.target == if Moves(started, head) then Some(head) else started.target
    ensures CalmAimed(first, s, c, limits, maxEvents)
  {
  }

  lemma CalmHeadReady(db: Db, c: Branch, head: Anchor, limits: Limits, maxEvents: nat)
    requires CalmChain(c, db.state.deployBlock, limits, maxEvents)
    requires RealAnchor(head) && head.blockHash <= c && head.blockNumber == |c| - 1
    ensures AnchorValid(Some(head))
  {
    assert TimeFits(c[|c| - 1]);
  }

  /** A started refresh of a calm chain, with the head of that chain. */
  ghost predicate CalmBegun(first: State, s: State, head: Anchor, c: Branch, limits: Limits, maxEvents: nat) {
    && ChainReady(first.deployBlock, c, limits, maxEvents) && first.reorg != Detected
    && OnBranch(first.startAnchor, c) && StartedOn(first, s, head, c)
  }

  /** The refresh of a calm chain has its target. */
  ghost predicate CalmAimed(first: State, s: State, c: Branch, limits: Limits, maxEvents: nat) {
    && CalmStarted(s, c, limits, maxEvents) && s.target.Some?
    && s.target.value.blockNumber == Goal(first, c) && s.nextBlock == FirstNext(first)
  }

  /** The target, once the first block is known; `first` is the state the refresh began with. */
  method Retarget(node: Node, store: Store, s: State, head: Anchor, ghost headAt: nat, ghost first: State,
                  ghost limits: Limits)
    returns (r: Result<Option<State>, Error>, ghost at: nat)
    requires node.Valid() && Sound(store) && Synced(s, store) && RealAnchor(head)
    requires CanonicalAt(head.blockHash, node.history, node.mark, headAt)
    modifies node`branch, node`history, node`answers, store
    ensures node.Valid() && Sound(store) && old(store.trace) <= store.trace
    ensures r.Ok? && r.value.Some? ==>
              && Synced(r.value.value, store) && r.value.value.target.Some?
              && CanonicalAt(r.value.value.target.value.blockHash, node.history, node.mark, at)
              && r.value.value.nextBlock == s.nextBlock
    ensures r.Ok? && r.value.None? ==> Cleared(store.Now())
    ensures node.calm ==> node.branch == old(node.branch)
    ensures node.calm && s == old(store.state) && CalmBegun(first, s, head, node.branch, limits, store.maxEvents) ==>
              && r.Ok?
              && if Lost(first, node.branch) then r.value.None? && store.state.deployBlock == first.deployBlock
                 else r.value == Some(store.state) &&
                      CalmAimed(first, store.state, node.branch, limits, store.maxEvents)
  {
    ghost var quiet := node.calm && s == store.state && CalmBegun(first, s, head, node.branch, limits, store.maxEvents);
    if quiet { CalmHeadReady(store.Now(), node.branch, head, limits, store.maxEvents); }
    r, at := FixTarget(node, store, s, head, headAt);
    if quiet && !Lost(first, node.branch) {
      CalmTargeted(first, s, store.state, head, node.branch, limits, store.maxEvents);
    }
  }

  lemma ReadyToStart(deployBlock: nat, c: Branch, limits: Limits, maxEvents: nat)
    requires ChainReady(deployBlock, c, limits, maxEvents)
    ensures StartRoom(deployBlock, c)
  {
  }

  /** The target of this refresh, canonical at `at`; `begun` is the state the refresh works on. Ok(None): the table was
      reset. */
  method Prepare(node: Node, store: Store, ghost limits: Limits)
    returns (r: Result<Option<State>, Error>, ghost at: nat, ghost begun: State)
    requires node.Valid() && Sound(store)
    modifies node, store
    ensures node.Valid() && Sound(store) && old(store.trace) <= store.trace
    ensures r.Ok? && r.value.Some? ==>
              && Synced(r.value.value, store) && r.value.value.target.Some?
              && CanonicalAt(r.value.value.target.value.blockHash, node.history, node.mark, at)
              && r.value.value.nextBlock == FirstNext(old(store.state))
    ensures r.Ok? ==> node.chainId == store.chainId && (r.value.None? ==> Cleared(store.Now()))
    ensures node.calm ==> node.branch == old(node.branch)
    ensures Quiet(node, store) && ChainReady(old(store.state.deployBlock), node.branch, limits, store.maxEvents) ==>
              && r.Ok? && BeginsAs(old(store.state), begun)
              && if Lost(begun, node.branch) then r.value.None? && store.state.deployBlock == begun.deployBlock
                 else r.value == Some(store.state) &&
                      CalmAimed(begun, store.state, node.branch, limits, store.maxEvents)
  {
    ghost var quiet := Quiet(node, store) &&
                       ChainReady(store.state.deployBlock, node.branch, limits, store.maxEvents);
    if quiet { ReadyToStart(store.state.deployBlock, node.branch, limits, store.maxEvents); }
    var started;
    started, at, begun := ReadStart(node, store);
    if started.Err? { return Err(started.error), at, begun; }
    if started.value.None? { return Ok(None), at, begun; }
    r, at := Retarget(node, store, started.value.value.0, started.value.value.1, at, begun, limits);
  }

  lemma CalmScanned(db: Db, before: State, s: State, c: Branch, limits: Limits, maxEvents: nat)
    requires Consistent(db, maxEvents) && Faithful(db) && CoreOf(Db(s, db.events)) == CoreOf(db)
    requires CalmStarted(before, c, limits, maxEvents) && CalmState(db.state, c, limits, maxEvents)
    requires s.startAnchor == before.startAnchor && s.deployBlock == before.deployBlock && s.target.Some?
    requires s.nextBlock > s.target.value.blockNumber
    ensures CalmEnd(s, c) && s.cutoff == s.target && db.state.reorg != Detected
    ensures CountedAt(db.events, c, s.target.value.blockNumber, limits)
  {
    CalmFinish(db, c, limits, maxEvents);
  }

  lemma CalmKept(before: State, s: State, after: State, c: Branch, limits: Limits, maxEvents: nat)
    requires CalmStarted(before, c, limits, maxEvents) && CalmState(after, c, limits, maxEvents)
    requires s.deployBlock == before.deployBlock == after.deployBlock
    ensures CalmReady(after, c, limits, maxEvents)
  {
  }

  /** A change of the status columns that ends in Complete keeps a calm table calm. */
  lemma CalmStatus(before: Db, after: Db, c: Branch, limits: Limits, maxEvents: nat)
    requires CalmReady(before.state, c, limits, maxEvents) && CoreOf(after) == CoreOf(before)
    requires after.state.coverage == Complete && ValidState(after.state)
    ensures CalmReady(after.state, c, limits, maxEvents)
  {
  }

  /** The pages of one refresh are done; past the target the table is complete or says what does not agree. */
  ghost predicate PagesDone(first: nat, s: State, limits: Limits) {
    && s.target.Some? && s.nextBlock == NextAfter(first, s.target.value.blockNumber, limits.maxWindows)
    && (s.nextBlock > s.target.value.blockNumber ==> s.coverage == Complete || s.reason == Some(CoverageMismatch))
  }

  /** The pages and, once the target is reached, the final checks. */
  method Advance(node: Node, store: Store, s: State, limits: Limits, ghost from: nat) returns (r: Result<(), Error>)
    requires node.Valid() && Sound(store) && Synced(s, store) && s.target.Some?
    requires CanonicalAt(s.target.value.blockHash, node.history, node.mark, from)
    modifies node, store
    ensures node.Valid() && Sound(store) && old(store.trace) <= store.trace
    ensures r.Ok? ==> PagesDone(s.nextBlock, store.state, limits)
    ensures node.calm ==> node.branch == old(node.branch)
    ensures node.calm && s == old(store.state) && CalmStarted(s, node.branch, limits, store.maxEvents) ==>
              && r.Ok? && store.state.target == s.target && CalmReady(store.state, node.branch, limits, store.maxEvents)
              && store.state.nextBlock == NextAfter(s.nextBlock, s.target.value.blockNumber, limits.maxWindows)
              && (store.state.nextBlock > s.target.value.blockNumber ==> store.state.coverage == Complete)
  {
    ghost var quiet := node.calm && s == store.state && CalmStarted(s, node.branch, limits, store.maxEvents);
    var scanned;
    ghost var at;
    scanned, at := ScanPages(node, store, s, limits, from);
    if scanned.Err? { return Err(scanned.error); }
    if quiet { CalmKept(s, scanned.value, store.state, node.branch, limits, store.maxEvents); }
    if scanned.value.nextBlock <= s.target.value.blockNumber { return Ok(()); }
    SoundNow(store);
    if quiet { CalmScanned(store.Now(), s, scanned.value, node.branch, limits, store.maxEvents); }
    ghost var paged := store.Now();
    r := Finish(node, store, scanned.value, limits, at);
    if quiet { CalmStatus(paged, store.Now(), node.branch, limits, store.maxEvents); }
  }

  /** The guarded part of a refresh. */
  method Attempt(node: Node, store: Store, limits: Limits) returns (r: Result<(), Error>, ghost begun: State)
    requires node.Valid() && Sound(store)
    modifies node, store
    ensures node.Valid() && Sound(store) && old(store.trace) <= store.trace
    ensures r.Ok? ==> node.chainId == store.chainId &&
                      (Cleared(store.Now()) || PagesDone(FirstNext(old(store.state)), store.state, limits))
    ensures node.calm ==> node.branch == old(node.branch)
    ensures Quiet(node, store) && ChainReady(old(store.state.deployBlock), node.branch, limits, store.maxEvents) ==>
              && r.Ok? && BeginsAs(old(store.state), begun)
              && if Lost(begun, node.branch)
                 then Cleared(store.Now()) && store.state.deployBlock == begun.deployBlock
                 else Progressed(begun, store.state, node.branch, limits) &&
                      CalmReady(store.state, node.branch, limits, store.maxEvents)
  {
    var prepared;
    ghost var at;
    prepared, at, begun := Prepare(node, store, limits);
    if prepared.Err? { return Err(prepared.error), begun; }
    if prepared.value.None? { return Ok(()), begun; }
    r := Advance(node, store, prepared.value.value, limits, at);
  }

  /** What one refresh of a calm chain achieves: `maxWindows` pages, and completeness once the goal is reached. */
  ghost predicate Progressed(before: State, after: State, c: Branch, limits: Limits) {
    && after.target.Some? && after.target.value.blockNumber == Goal(before, c)
    && after.nextBlock == NextAfter(FirstNext(before), Goal(before, c), limits.maxWindows)
    && (after.nextBlock > Goal(before, c) ==> after.coverage == Complete)
  }

  /** What a refresh works on is as lost as what it found, and has the same way ahead. */
  lemma BegunAlike(s: State, begun: State, c: Branch)
    requires BeginsAs(s, begun)
    ensures Lost(begun, c) == Lost(s, c) && Goal(begun, c) == Goal(s, c) && FirstNext(begun) == FirstNext(s)
    ensures begun.deployBlock == s.deployBlock
  {
  }
}
