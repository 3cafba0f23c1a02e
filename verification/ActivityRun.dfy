/** Whole runs: refreshes with their error handling, checkpoint validation, crashes and restarts, in any order,
    on a chain that does as it likes between scans. */
module ActivityRun {
  import opened Wrappers
  import opened Arithmetic
  import opened Chain
  import opened ActivityStore
  import opened ActivityCoverage
  import opened ActivityCalm
  import opened ActivityIndex
  import opened ActivityRefresh

  function ReasonFor(error: Error): Reason {
    match error
    case OverCapacity => Capacity
    case LogInvalid => InvalidLog
    case OverBudget => BackfillIncomplete
    case _ => RpcUnavailable
  }

  function HandledAs(error: Error): Reason {
    if error == ReorgSeen || error == EventConflict then ReorgRebuild else ReasonFor(error)
  }

  /** The handler around a refresh: a reorganisation empties the table, anything else is recorded as a reason. */
  method Handle(store: Store, error: Error)
    requires Sound(store)
    modifies store
    ensures Sound(store) && old(store.trace) <= store.trace
    ensures error == ReorgSeen || error == EventConflict ==> exists at :: store.Now() == Reset(old(store.Now()), at)
    ensures error != ReorgSeen && error != EventConflict ==>
              store.state == FailureState(old(store.state), ReasonFor(error)) && store.events == old(store.events)
  {
    if error == ReorgSeen || error == EventConflict {
      ResetTable(store);
    } else {
      SetFailure(store, ReasonFor(error));
    }
  }

  /** What a refresh makes of a calm chain: if a block the table relies on is gone the table is empty, and otherwise it
      has come nearer to the goal, with nothing lost. */
  ghost predicate Refreshed(before: State, after: Db, c: Branch, limits: Limits, maxEvents: nat) {
    if Lost(before, c) then Cleared(after) && after.state.deployBlock == before.deployBlock
    else Progressed(before, after.state, c, limits) && CalmReady(after.state, c, limits, maxEvents)
  }

  /** One refresh. Only a table of another deployment is reported to the caller, and then it is left alone.
      After any other failure the table says why, and does not say that it is complete. */
  method RefreshActivity(node: Node, store: Store, contract: nat, limits: Limits)
    returns (r: Result<(), Error>, ghost failure: Option<Error>)
    requires node.Valid() && Sound(store)
    modifies node, store
    ensures node.Valid() && Sound(store) && old(store.trace) <= store.trace
    ensures r == if old(store.state).contract != contract then Err(DeploymentMismatch) else Ok(())
    ensures r.Err? ==> store.Now() == old(store.Now())
    ensures r.Ok? && failure.None? ==>
              node.chainId == store.chainId &&
                (Cleared(store.Now()) || PagesDone(FirstNext(old(store.state)), store.state, limits))
    ensures failure.Some? ==> store.state.coverage != Complete && store.state.reason == Some(HandledAs(failure.value))
    ensures node.calm ==> node.branch == old(node.branch)
    ensures Quiet(node, store) && r.Ok? &&
              ChainReady(old(store.state.deployBlock), node.branch, limits, store.maxEvents) ==>
              failure.None? && Refreshed(old(store.state), store.Now(), node.branch, limits, store.maxEvents)
  {
    failure := None;
    if store.state.contract != contract { return Err(DeploymentMismatch), failure; }
    var attempt;
    ghost var begun;
    attempt, begun := Attempt(node, store, limits);
    if Quiet(node, store) && ChainReady(old(store.state.deployBlock), node.branch, limits, store.maxEvents) {
      BegunAlike(old(store.state), begun, node.branch);
    }
    if attempt.Err? {
      failure := Some(attempt.error);
      Handle(store, attempt.error);
    }
    r := Ok(());
  }

  // ---------------------------------------------------------------- validation before a paid answer

  predicate Trusted(s: State) {
    s.cutoff.Some? && s.coverage == Complete && s.reorg == Clear
  }

  /** The validated history: complete, for the very branch that held the cutoff at instant `at`. */
  ghost predicate Validated(db: Db, history: seq<Branch>, at: nat) {
    && Trusted(db.state) && CompleteMeans(db) && Exact(db.events, db.state.cutoff.value.blockHash, db.state.deployBlock)
    && at < |history| && db.state.cutoff.value.blockHash <= history[at]
  }

  /** The remote part: the chain id, then the block of the cutoff. Refreshes of the same process go on meanwhile. */
  method CutoffCanonical(node: Node, store: Store, s: State) returns (r: Result<bool, Error>)
    requires node.Valid() && Sound(store) && s.cutoff.Some? && RealAnchor(s.cutoff.value)
    modifies node`branch, node`history, node`answers, store
    ensures node.Valid() && Sound(store) && old(store.trace) <= store.trace
    ensures r.Ok? ==> node.chainId == s.chainId && (r.value <==> s.cutoff.value.blockHash <= node.branch)
    ensures Quiet(node, store) && s.chainId == store.chainId ==>
              && node.branch == old(node.branch) && store.Now() == old(store.Now())
              && (r.Ok? <==> s.cutoff.value.blockNumber < |node.branch|)
  {
    Meanwhile(store, node.calm);
    var id := node.GetChainId();
    if id.Err? { return Err(RpcFailed); }
    if id.value != s.chainId { return Err(ChainMismatch); }
    Meanwhile(store, node.calm);
    var block := node.GetBlock(s.cutoff.value.blockNumber);
    if block.Err? { return Err(RpcFailed); }
    r := Ok(AnchorOf(block.value) == s.cutoff.value);
  }

  /** The answer of a node that has stopped changing, by where the cutoff is: on its chain, on another one at a height
      the chain has, or above its head. */
  ghost predicate Answered(before: Db, after: Db, c: Branch, valid: bool, now: nat)
    requires Trusted(before.state)
  {
    var cutoff, s := before.state.cutoff.value, after.state;
    && CoreOf(after) == CoreOf(before)
    && if cutoff.blockHash <= c then valid && after == before
       else if cutoff.blockNumber < |c| then
         && !valid && s.reorg == Detected && s.coverage == Coverage.Unavailable && s.reason == Some(ReorgRebuild)
         && s.lastDetectedAt == Some(now) && s.lastValidatedAt.None?
       else
         !valid && s.reorg == Clear && s.coverage == Partial && s.reason == Some(RpcUnavailable)
  }

  /** True only for a complete history of the branch the node was last seen on, and of the cutoff that was asked about.
      A cutoff that is no longer canonical is marked at once, so that no later reader trusts the old rows. A table that
      was moved on meanwhile is not validated, though it may be trusted. */
  method ValidateCheckpoint(node: Node, store: Store, now: nat) returns (valid: bool)
    requires node.Valid() && Sound(store)
    modifies node`branch, node`history, node`answers, store
    ensures node.Valid() && Sound(store) && old(store.trace) <= store.trace
    ensures valid ==> && Validated(store.Now(), node.history, |node.history| - 1) && node.chainId == store.chainId
                      && store.state.cutoff == old(store.state.cutoff)
                      && store.state.nextBlock == old(store.state.nextBlock)
    ensures !old(Trusted(store.state)) ==> !valid && store.Now() == old(store.Now())
    ensures !valid && old(Trusted(store.state)) && Trusted(store.state) ==>
              store.state.cutoff != old(store.state.cutoff) || store.state.nextBlock != old(store.state.nextBlock)
    ensures Quiet(node, store) && old(Trusted(store.state)) ==>
              Answered(old(store.Now()), store.Now(), node.branch, valid, now)
  {
    var state := store.state;
    if !Trusted(state) { return false; }
    SoundNow(store);
    var canonical := CutoffCanonical(node, store, state);
    if canonical.Err? {
      SetFailure(store, RpcUnavailable);
      return false;
    }
    if store.state.nextBlock != state.nextBlock || store.state.cutoff != state.cutoff || !Trusted(store.state) {
      return false;
    }
    SoundNow(store);
    if canonical.value { return true; }
    MarkDetected(store, now);
    valid := false;
  }

  // ---------------------------------------------------------------- whole runs

  datatype Task = Refresh(contract: nat) | Validate(now: nat) | Wander | Restart

  /** Between scans the chain may move anywhere, back to an abandoned branch included. */
  method WanderOff(node: Node)
    requires node.Valid()
    modifies node
    ensures node.Valid()
  {
    node.BeginScan();
    node.Await();
  }

  lemma AnyCrashPoint(store: Store, i: nat)
    requires Sound(store) && i < |store.trace|
    ensures store.trace[i].state.chainId == store.chainId
    ensures Consistent(store.trace[i], store.maxEvents) && Faithful(store.trace[i]) &&
              Faithful(Reopened(store.trace[i]))
  {
    assert FaithfulAt(store.trace, i, store.maxEvents);
  }

  /** The process stops at any point, so any committed state may be the one that is left; another process opens it. */
  method CrashAndOpen(store: Store) returns (next: Store)
    requires Sound(store)
    ensures fresh(next) && Sound(next) && next.maxEvents == store.maxEvents && next.chainId == store.chainId
    ensures !Trusted(next.state)
    ensures exists left :: left in store.trace && next.Now() == Reopened(left)
  {
    var i: nat :| i < |store.trace|;
    AnyCrashPoint(store, i);
    var left := store.trace[i];
    var table := OpenTable(left, store.chainId, left.state.contract, left.state.deployBlock, store.maxEvents);
    next := table.value;
    assert store.trace[i] in store.trace;
    assert FaithfulAt(next.trace, 0, next.maxEvents);
  }

  method Perform(task: Task, node: Node, store: Store, limits: Limits) returns (next: Store)
    requires node.Valid() && Sound(store)
    modifies node, store
    ensures node.Valid() && Sound(next) && next.chainId == store.chainId
    ensures if task.Restart? then fresh(next) && !Trusted(next.state) else next == store
  {
    next := store;
    match task
    case Refresh(contract) =>
      ghost var failure;
      var refreshed;
      refreshed, failure := RefreshActivity(node, store, contract, limits);
    case Validate(now) =>
      var _ := ValidateCheckpoint(node, store, now);
    case Wander =>
      WanderOff(node);
    case Restart =>
      next := CrashAndOpen(store);
  }

  /** Every state of every run: the stored rows are exactly the logs of one branch, the one its cutoff names. */
  method Run(tasks: seq<Task>, genesis: Branch, nodeChain: nat, chainId: nat, contract: nat, deployBlock: nat,
             maxEvents: nat, limits: Limits)
    returns (store: Store)
    requires deployBlock < TWO64
    ensures Sound(store)
    ensures forall i | 0 <= i < |store.trace| :: Faithful(store.trace[i]) && Consistent(store.trace[i], store.maxEvents)
    ensures store.chainId == chainId && (|tasks| > 0 && tasks[|tasks| - 1].Restart? ==> !Trusted(store.state))
  {
    CreatedFaithful(chainId, contract, deployBlock);
    var node := new Node(genesis, false, nodeChain);
    store := new Store.Create(chainId, contract, deployBlock, maxEvents);
    assert FaithfulAt(store.trace, 0, maxEvents);
    for i := 0 to |tasks|
      invariant fresh(node) && fresh(store) && node.Valid() && Sound(store) && store.chainId == chainId
      invariant i > 0 && tasks[i - 1].Restart? ==> !Trusted(store.state)
    {
      store := Perform(tasks[i], node, store, limits);
    }
    forall i | 0 <= i < |store.trace| ensures Faithful(store.trace[i]) && Consistent(store.trace[i], store.maxEvents) {
      AnyCrashPoint(store, i);
    }
  }

  // ---------------------------------------------------------------- catching up

  /** Refreshes that n blocks need when each may scan w pages: at least the one that makes the final checks. */
  function RefreshesFor(n: nat, w: nat): nat
    requires w > 0
  {
    if n == 0 then 1 else (n + PAGE * w - 1) / (PAGE * w)
  }

  /** After k refreshes of a run towards `goal` that began at `next`. */
  ghost predicate CaughtUp(s: State, next: nat, goal: nat, w: nat, k: nat) {
    && s.target.Some? && s.target.value.blockNumber == goal
    && s.nextBlock == NextAfter(next, goal, k * w)
    && (s.nextBlock > goal ==> s.coverage == Complete)
  }

  lemma OneMore(before: State, after: State, c: Branch, next: nat, goal: nat, limits: Limits, k: nat)
    requires Progressed(before, after, c, limits) && next <= goal + 1
    requires k == 0 ==> FirstNext(before) == next && goal == Goal(before, c)
    requires k > 0 ==> CaughtUp(before, next, goal, limits.maxWindows, k) && before.coverage != Complete &&
                       before.reorg != Detected
    ensures CaughtUp(after, next, goal, limits.maxWindows, k + 1)
  {
    assert (k + 1) * limits.maxWindows == k * limits.maxWindows + limits.maxWindows;
  }

  /** Refresh k + 1 of the run is the one that completes it. */
  lemma ExactlyAsMany(next: nat, goal: nat, w: nat, k: nat)
    requires w > 0 && next <= goal + 1
    requires k > 0 ==> NextAfter(next, goal, k * w) <= goal
    requires NextAfter(next, goal, (k + 1) * w) > goal
    ensures k + 1 == RefreshesFor(goal + 1 - next, w)
  {
    var n := goal + 1 - next;
    assert PAGE * ((k + 1) * w) == (k + 1) * (PAGE * w) && PAGE * (k * w) == k * (PAGE * w);
    if n > 0 {
      CeilIs(n, PAGE * w, k + 1);
    }
  }

  /** Everything the catching-up loop keeps once nothing is lost: k refreshes done. */
  ghost predicate OnTheWay(s: State, initial: State, c: Branch, limits: Limits, maxEvents: nat, k: nat) {
    && ChainReady(s.deployBlock, c, limits, maxEvents) && !Lost(s, c)
    && (k == 0 ==> s == initial)
    && (k > 0 ==> s.reorg != Detected && CaughtUp(s, FirstNext(initial), Goal(initial, c), limits.maxWindows, k))
    && (k > 1 ==> NextAfter(FirstNext(initial), Goal(initial, c), (k - 1) * limits.maxWindows) <= Goal(initial, c))
  }

  function Left(s: State, goal: nat, k: nat): nat {
    if k == 0 then goal + 2 else if s.nextBlock > goal then 0 else goal + 1 - s.nextBlock
  }

  lemma Onward(initial: State, before: State, after: State, c: Branch, limits: Limits, maxEvents: nat, k: nat)
    requires limits.maxWindows > 0 && FirstNext(initial) <= Goal(initial, c) + 1
    requires OnTheWay(before, initial, c, limits, maxEvents, k) && (k == 0 || before.coverage != Complete)
    requires Progressed(before, after, c, limits) && CalmReady(after, c, limits, maxEvents)
    ensures OnTheWay(after, initial, c, limits, maxEvents, k + 1)
    ensures Left(after, Goal(initial, c), k + 1) < Left(before, Goal(initial, c), k)
  {
    OneMore(before, after, c, FirstNext(initial), Goal(initial, c), limits, k);
  }

  /** Where the rows start that are still to be read: at the deploy block if nothing that is stored can stay. */
  function StartsAt(s: State, lost: bool): nat {
    if lost then s.deployBlock else FirstNext(s)
  }

  /** Up to where they go: up to the head, unless a target that is not reached yet can stay. */
  function EndsAt(s: State, c: Branch, lost: bool): nat {
    if lost then |c| - 1 else Goal(s, c)
  }

  /** Complete at the goal, after exactly as many refreshes as the blocks that remained needed, and one more to empty
      a table that relied on a block that is gone. */
  ghost predicate Finished(initial: State, c: Branch, db: Db, limits: Limits, refreshes: nat)
    requires limits.maxWindows > 0
  {
    var lost := Lost(initial, c);
    var from, goal := StartsAt(initial, lost), EndsAt(initial, c, lost);
    && db.state.coverage == Complete && CompleteMeans(db) && db.state.cutoff.value.blockNumber == goal
    && from <= goal + 1
    && refreshes == RefreshesFor(goal + 1 - from, limits.maxWindows) + if lost then 1 else 0
  }

  lemma Arrived(initial: State, db: Db, c: Branch, limits: Limits, maxEvents: nat, k: nat)
    requires limits.maxWindows > 0 && FirstNext(initial) <= Goal(initial, c) + 1 && k > 0
    requires OnTheWay(db.state, initial, c, limits, maxEvents, k) && db.state.coverage == Complete
    requires ValidState(db.state) && Faithful(db)
    ensures CompleteMeans(db) && db.state.cutoff.value.blockNumber == Goal(initial, c)
    ensures k == RefreshesFor(Goal(initial, c) + 1 - FirstNext(initial), limits.maxWindows)
  {
    ExactlyAsMany(FirstNext(initial), Goal(initial, c), limits.maxWindows, k - 1);
  }

  lemma GoalAhead(db: Db, c: Branch, limits: Limits, maxEvents: nat)
    requires Consistent(db, maxEvents) && Faithful(db)
    requires ChainReady(db.state.deployBlock, c, limits, maxEvents) && !Lost(db.state, c)
    ensures FirstNext(db.state) <= Goal(db.state, c) + 1
  {
  }

  /** The state of the loop after so many refreshes: a table that had lost a block was emptied by the first of them, and
      k refreshes have been made since nothing is lost, from state `base` on. */
  ghost predicate Along(s: State, initial: State, base: State, c: Branch, limits: Limits, maxEvents: nat,
                        refreshes: nat, k: nat) {
    if Lost(initial, c) && refreshes == 0 then
      s == initial && ChainReady(s.deployBlock, c, limits, maxEvents)
    else
      && OnTheWay(s, base, c, limits, maxEvents, k) && FirstNext(base) <= Goal(base, c) + 1
      && if Lost(initial, c) then Emptied(base) && base.deployBlock == initial.deployBlock && refreshes == k + 1
         else base == initial && refreshes == k
  }

  lemma NextRefresh(initial: State, base: State, before: State, after: Db, c: Branch, limits: Limits, maxEvents: nat,
                    refreshes: nat, k: nat)
    returns (base': State, k': nat)
    requires limits.maxWindows > 0 && Along(before, initial, base, c, limits, maxEvents, refreshes, k)
    requires refreshes == 0 || before.coverage != Complete
    requires Refreshed(before, after, c, limits, maxEvents)
    ensures Along(after.state, initial, base', c, limits, maxEvents, refreshes + 1, k')
    ensures || (Lost(initial, c) && refreshes == 0)
            || (base' == base && Left(after.state, Goal(base, c), k') < Left(before, Goal(base, c), k))
  {
    if Lost(initial, c) && refreshes == 0 {
      base', k' := after.state, 0;
    } else {
      base', k' := base, k + 1;
      Onward(base, before, after.state, c, limits, maxEvents, k);
    }
  }

  lemma AllDone(initial: State, base: State, db: Db, c: Branch, limits: Limits, maxEvents: nat, refreshes: nat, k: nat)
    requires limits.maxWindows > 0 && Along(db.state, initial, base, c, limits, maxEvents, refreshes, k)
    requires refreshes > 0 && db.state.coverage == Complete && ValidState(db.state) && Faithful(db)
    ensures Finished(initial, c, db, limits, refreshes)
  {
    Arrived(base, db, c, limits, maxEvents, k);
  }

  method RefreshOnce(node: Node, store: Store, limits: Limits, ghost initial: State, ghost base: State, ghost c: Branch,
                     ghost refreshes: nat, ghost k: nat)
    returns (ghost base': State, ghost k': nat)
    requires node.branch == c && node.Valid() && Quiet(node, store) && Sound(store) && limits.maxWindows > 0
    requires Along(store.state, initial, base, c, limits, store.maxEvents, refreshes, k)
    requires refreshes == 0 || store.state.coverage != Complete
    modifies node, store
    ensures node.Valid() && Sound(store) && node.branch == c
    ensures Along(store.state, initial, base', c, limits, store.maxEvents, refreshes + 1, k')
    ensures || (Lost(initial, c) && refreshes == 0)
            || (base' == base && Left(store.state, Goal(base, c), k') < old(Left(store.state, Goal(base, c), k)))
  {
    ghost var before := store.state;
    ghost var failure;
    var refreshed;
    refreshed, failure := RefreshActivity(node, store, store.state.contract, limits);
    base', k' := NextRefresh(initial, base, before, store.Now(), c, limits, store.maxEvents, refreshes, k);
  }

  /** A chain that has stopped changing, and a table in any state: the scheduler's refreshes complete the table after
      exactly as many as the blocks that remain to the target need, and one more if the table relied on a block that is
      gone. Complete means what CompleteMeans says. */
  method CatchUp(node: Node, store: Store, limits: Limits) returns (refreshes: nat)
    requires node.Valid() && Quiet(node, store) && Sound(store) && limits.maxWindows > 0
    requires ChainReady(store.state.deployBlock, node.branch, limits, store.maxEvents)
    modifies node, store
    ensures Sound(store) && Finished(old(store.state), old(node.branch), store.Now(), limits, refreshes)
  {
    SoundNow(store);
    ghost var initial, c := store.state, node.branch;
    if !Lost(initial, c) { GoalAhead(store.Now(), c, limits, store.maxEvents); }
    ghost var base, k: nat := initial, 0;
    refreshes := 0;
    while refreshes == 0 || store.state.coverage != Complete
      invariant node.Valid() && Sound(store) && node.branch == c
      invariant Along(store.state, initial, base, c, limits, store.maxEvents, refreshes, k)
      decreases refreshes == 0, Left(store.state, Goal(base, c), k)
    {
      base, k := RefreshOnce(node, store, limits, initial, base, c, refreshes, k);
      refreshes := refreshes + 1;
    }
    SoundNow(store);
    AllDone(initial, base, store.Now(), c, limits, store.maxEvents, refreshes, k);
  }

  // ---------------------------------------------------------------- why the node assumption is needed

  /** Without it a page can lose a log: the node answers the log query from another branch and comes back. */
  lemma ReinstatementLosesLogs(a: Branch, b: Branch)
    requires a == [GENESIS, Block(1, [7], [Log(7, 0, 0, true, CREATED, Some(1), "")], [])]
    requires b == [GENESIS, Block(2, [], [], [])]
    ensures HeaderAt(a, 1) == HeaderAt([a, b, a][2], 1)
    ensures Honest([], b, 1, 1) && AllTraced([], [], [a, b, a], 2, 1, 1)
    ensures !PageExact([], a[..2], 1) && !NoReinstatement([a, b, a], 0)
  {
    assert LogAt(a[..2], 1, a[1].logs[0]);
    assert !InPage([], a[..2], 1, a[1].logs[0]);
    assert !StayedOn([a, b, a], 0, 1, 2, 2);
  }
}
