/** The mutable chain and the node that answers for it.

    A block's hash fixes the block and all its ancestors, so the hash of a block is modelled as the
    whole prefix of bodies that ends in it: two hashes are equal exactly when the chains below them are.
    Every remote call is a point at which the node may have moved to another branch. */
module Chain {
  import opened Wrappers

  /** One log of the market contract. `strict` says that its data decode against the ABI in full. */
  datatype Log = Log(txHash: nat, txIndex: nat, logIndex: nat, strict: bool, name: string,
                     demandId: Option<nat>, payload: string)

  /** What the contract stores for one demand; `details` stands for every field but the escrow. */
  datatype Demand = Demand(committed: nat, details: nat)

  /** A block body, with the contract's demand table after the block: demand k is `demands[k - 1]`. */
  datatype Block = Block(timestamp: nat, txs: seq<nat>, logs: seq<Log>, demands: seq<Demand>)

  const GENESIS := Block(0, [], [], [])

  type Branch = c: seq<Block> | |c| > 0 witness [GENESIS]
  type Hash = seq<Block>

  datatype Header = Header(number: nat, hash: Hash, timestamp: nat, txs: seq<nat>)

  function HeaderAt(c: Branch, n: nat): Header
    requires n < |c|
  {
    Header(n, c[..n + 1], c[n].timestamp, c[n].txs)
  }

  /** A log as a node sends it: any field may be missing or belong to another block. */
  datatype RawLog = RawLog(removed: bool, ours: bool, blockNumber: Option<nat>, blockHash: Option<Hash>,
                           txHash: Option<nat>, logIndex: Option<int>, txIndex: Option<int>,
                           strict: bool, name: string, demandId: Option<nat>, payload: string)

  function RawOf(h: Hash, l: Log): RawLog
    requires |h| > 0
  {
    RawLog(false, true, Some(|h| - 1), Some(h), Some(l.txHash), Some(l.logIndex), Some(l.txIndex),
           l.strict, l.name, l.demandId, l.payload)
  }

  predicate Named(r: RawLog) {
    && !r.removed && r.ours && r.blockNumber.Some? && r.blockHash.Some? && r.txHash.Some?
    && r.logIndex.Some? && r.logIndex.value >= 0 && r.txIndex.Some? && r.txIndex.value >= 0
  }

  function LogOf(r: RawLog): Log
    requires Named(r)
  {
    Log(r.txHash.value, r.txIndex.value, r.logIndex.value, r.strict, r.name, r.demandId, r.payload)
  }

  /** A log that names one of the contract's blocks really is in that block. */
  predicate Authentic(r: RawLog) {
    Named(r) && |r.blockHash.value| == r.blockNumber.value + 1 ==>
      LogOf(r) in r.blockHash.value[r.blockNumber.value].logs
  }

  predicate HasAllOf(raws: seq<RawLog>, h: Hash, logs: seq<Log>)
    requires |h| > 0
  {
    forall l | l in logs :: RawOf(h, l) in raws
  }

  /** The node assumption for log queries: complete for the branch the answer comes from, and no invented logs.
      Logs of other branches, other contracts or withdrawn blocks may be mixed in. */
  predicate Honest(raws: seq<RawLog>, c: Branch, from: nat, upTo: nat) {
    && (forall r | r in raws :: Authentic(r))
    && (forall n | from <= n <= upTo && n < |c| :: HasAllOf(raws, c[..n + 1], c[n].logs))
  }

  function RawLogs(h: Hash, logs: seq<Log>): (raws: seq<RawLog>)
    requires |h| > 0
    ensures |raws| == |logs| && forall i | 0 <= i < |logs| :: raws[i] == RawOf(h, logs[i])
  {
    seq(|logs|, i requires 0 <= i < |logs| => RawOf(h, logs[i]))
  }

  function BlockLogs(c: Branch, n: nat): seq<RawLog> {
    if n < |c| then RawLogs(c[..n + 1], c[n].logs) else []
  }

  /** The logs of the blocks from..until - 1, in chain order. */
  function LogsUntil(c: Branch, from: nat, until: nat): seq<RawLog> {
    if until <= from then [] else LogsUntil(c, from, until - 1) + BlockLogs(c, until - 1)
  }

  /** The clean answer: every log of the range, in chain order, and nothing else. */
  function LogsBetween(c: Branch, from: nat, upTo: nat): seq<RawLog> {
    LogsUntil(c, from, upTo + 1)
  }

  /** raw is log i of block n. */
  predicate IsLog(raw: RawLog, c: Branch, n: nat, i: nat) {
    n < |c| && i < |c[n].logs| && raw == RawOf(c[..n + 1], c[n].logs[i])
  }

  ghost predicate FromBlocks(raw: RawLog, c: Branch, from: nat, until: nat) {
    exists n: nat, i: nat :: from <= n < until && IsLog(raw, c, n, i)
  }

  lemma {:induction false} LogsAreLogs(c: Branch, from: nat, until: nat)
    ensures forall raw | raw in LogsUntil(c, from, until) :: FromBlocks(raw, c, from, until)
  {
    if from < until {
      var last := BlockLogs(c, until - 1);
      forall raw | raw in last ensures FromBlocks(raw, c, from, until) {
        var i :| 0 <= i < |last| && last[i] == raw;
        assert IsLog(raw, c, until - 1, i);
      }
      LogsAreLogs(c, from, until - 1);
      forall raw | raw in LogsUntil(c, from, until - 1) ensures FromBlocks(raw, c, from, until) {
        assert FromBlocks(raw, c, from, until - 1);
      }
    }
  }

  lemma BlockLogsHonest(c: Branch, n: nat)
    requires n < |c|
    ensures HasAllOf(BlockLogs(c, n), c[..n + 1], c[n].logs)
    ensures forall r | r in BlockLogs(c, n) :: Authentic(r)
  {
    var raws := BlockLogs(c, n);
    forall l | l in c[n].logs ensures RawOf(c[..n + 1], l) in raws {
      var i :| 0 <= i < |c[n].logs| && c[n].logs[i] == l;
      assert raws[i] == RawOf(c[..n + 1], l);
    }
    forall r | r in raws ensures Authentic(r) {
      var i :| 0 <= i < |raws| && raws[i] == r;
      assert LogOf(r) == c[n].logs[i];
    }
  }

  ghost predicate CompleteUntil(raws: seq<RawLog>, c: Branch, from: nat, until: nat) {
    && (forall r | r in raws :: Authentic(r))
    && (forall n | from <= n < until && n < |c| :: HasAllOf(raws, c[..n + 1], c[n].logs))
  }

  /** One more block keeps the answer complete. */
  lemma CompleteLonger(raws: seq<RawLog>, c: Branch, from: nat, until: nat)
    requires CompleteUntil(raws, c, from, until)
    ensures CompleteUntil(raws + BlockLogs(c, until), c, from, until + 1)
  {
    var all := raws + BlockLogs(c, until);
    if until < |c| { BlockLogsHonest(c, until); }
    forall n | from <= n < until + 1 && n < |c| ensures HasAllOf(all, c[..n + 1], c[n].logs) {
      if n < until { assert HasAllOf(raws, c[..n + 1], c[n].logs); }
    }
  }

  lemma CompleteNext(c: Branch, from: nat, last: nat)
    requires from <= last && CompleteUntil(LogsUntil(c, from, last), c, from, last)
    ensures CompleteUntil(LogsUntil(c, from, last + 1), c, from, last + 1)
  {
    CompleteLonger(LogsUntil(c, from, last), c, from, last);
  }

  lemma {:induction false} LogsUntilComplete(c: Branch, from: nat, until: nat)
    ensures CompleteUntil(LogsUntil(c, from, until), c, from, until)
  {
    if until <= from {
      assert LogsUntil(c, from, until) == [];
    } else {
      LogsUntilComplete(c, from, until - 1);
      CompleteNext(c, from, until - 1);
    }
  }

  lemma LogsBetweenHonest(c: Branch, from: nat, upTo: nat)
    ensures Honest(LogsBetween(c, from, upTo), c, from, upTo)
  {
    LogsUntilComplete(c, from, upTo + 1);
  }

  /** If the first n blocks of instant i are canonical at instant k, they are at j as well. */
  predicate StayedOn(history: seq<Branch>, i: nat, j: nat, k: nat, n: nat)
    requires i < |history| && j < |history| && k < |history| && n <= |history[i]|
  {
    history[i][..n] <= history[k] ==> history[i][..n] <= history[j]
  }

  /** Since instant m, a block that was canonical twice was canonical at every instant in between. */
  predicate NoReinstatement(history: seq<Branch>, m: nat) {
    forall i, j, k, n | m <= i < |history| && i <= j < |history| && j <= k < |history| && 0 <= n <= |history[i]| ::
      StayedOn(history, i, j, k, n)
  }

  /** The form in which the assumption is used. */
  lemma Between(history: seq<Branch>, m: nat, i: nat, j: nat, k: nat, h: Hash)
    requires NoReinstatement(history, m)
    requires m <= i <= j <= k < |history|
    requires h <= history[i] && h <= history[k]
    ensures h <= history[j]
  {
    assert history[i][..|h|] == h;
    assert StayedOn(history, i, j, k, |h|);
  }

  lemma StayingPut(history: seq<Branch>, m: nat)
    requires |history| > 0 && NoReinstatement(history, m)
    ensures NoReinstatement(history + [history[|history| - 1]], m)
  {
    var longer := history + [history[|history| - 1]];
    forall i, j, k, n | m <= i < |longer| && i <= j < |longer| && j <= k < |longer| && 0 <= n <= |longer[i]|
      ensures StayedOn(longer, i, j, k, n)
    {
      if i < |history| && j < |history| && longer[i][..n] <= longer[k] {
        var k' := if k < |history| then k else |history| - 1;
        Between(history, m, i, j, k', longer[i][..n]);
      }
    }
  }

  datatype Failure = CallFailed

  /** A chain node. `history` lists the branch at each instant of the process, one instant per remote call, and
      `answers` the logs of all its answers to log queries. */
  class Node {
    var branch: Branch
    var history: seq<Branch>
    var answers: seq<RawLog>
    var mark: nat
    /** The node's chain no longer changes and every call succeeds with a clean answer. */
    const calm: bool
    const chainId: nat

    ghost predicate Valid()
      reads this
    {
      && |history| > 0 && history[|history| - 1] == branch
      && mark < |history| && NoReinstatement(history, mark)
    }

    constructor (genesis: Branch, calm: bool, chainId: nat)
      ensures Valid() && branch == genesis && this.calm == calm && this.chainId == chainId
    {
      branch := genesis;
      history, answers := [genesis], [];
      mark := 0;
      this.calm := calm;
      this.chainId := chainId;
    }

    /** From here to the next mark no abandoned branch is reinstated. */
    method BeginScan()
      requires Valid()
      modifies this`mark
      ensures Valid() && mark == |history| - 1
    {
      mark := |history| - 1;
    }

    /** One await: the node may move to any branch the assumption allows. */
    method Await()
      requires Valid()
      modifies this`branch, this`history
      ensures Valid() && history == old(history) + [branch]
      ensures calm ==> branch == old(branch)
    {
      StayingPut(history, mark);
      if !calm {
        var next: Branch :| NoReinstatement(history + [next], mark);
        branch := next;
      }
      history := history + [branch];
    }

    method GetChainId() returns (r: Result<nat, Failure>)
      requires Valid()
      modifies this`branch, this`history
      ensures Valid() && history == old(history) + [branch]
      ensures r.Ok? ==> r.value == chainId
      ensures calm ==> branch == old(branch) && r.Ok?
    {
      Await();
      r := Ok(chainId);
      if !calm {
        if * { r := Err(CallFailed); }
      }
    }

    method GetHead() returns (r: Result<Header, Failure>)
      requires Valid()
      modifies this`branch, this`history
      ensures Valid() && history == old(history) + [branch]
      ensures r.Ok? ==> r.value == HeaderAt(branch, |branch| - 1)
      ensures calm ==> branch == old(branch) && r.Ok?
    {
      Await();
      r := Ok(HeaderAt(branch, |branch| - 1));
      if !calm {
        if * { r := Err(CallFailed); }
      }
    }

    method GetBlock(n: nat) returns (r: Result<Header, Failure>)
      requires Valid()
      modifies this`branch, this`history
      ensures Valid() && history == old(history) + [branch]
      ensures r.Ok? ==> n < |branch| && r.value == HeaderAt(branch, n)
      ensures calm ==> branch == old(branch) && (n < |branch| ==> r.Ok?)
    {
      Await();
      r := if n < |branch| then Ok(HeaderAt(branch, n)) else Err(CallFailed);
      if !calm {
        if * { r := Err(CallFailed); }
      }
    }

    method GetLogs(from: nat, upTo: nat) returns (r: Result<seq<RawLog>, Failure>)
      requires Valid()
      modifies this`branch, this`history, this`answers
      ensures Valid() && history == old(history) + [branch]
      ensures answers == (if r.Ok? then old(answers) + r.value else old(answers))
      ensures r.Ok? ==> Honest(r.value, branch, from, upTo)
      ensures calm ==> branch == old(branch) && r == Ok(LogsBetween(branch, from, upTo))
    {
      Await();
      LogsBetweenHonest(branch, from, upTo);
      r := Ok(LogsBetween(branch, from, upTo));
      if !calm {
        var raws: seq<RawLog> :| Honest(raws, branch, from, upTo);
        r := Ok(raws);
        if * { return Err(CallFailed); }
      }
      answers := answers + r.value;
    }

    /** `nextDemandId` of the contract at block n. */
    method ReadNextDemandId(n: nat) returns (r: Result<nat, Failure>)
      requires Valid()
      modifies this`branch, this`history
      ensures Valid() && history == old(history) + [branch]
      ensures r.Ok? ==> n < |branch| && r.value == |branch[n].demands| + 1
      ensures calm ==> branch == old(branch) && (n < |branch| ==> r.Ok?)
    {
      Await();
      r := if n < |branch| then Ok(|branch[n].demands| + 1) else Err(CallFailed);
      if !calm {
        if * { r := Err(CallFailed); }
      }
    }

    /** One demand at block n; the contract reverts for an id it does not know. */
    method ReadDemand(id: nat, n: nat) returns (r: Result<Demand, Failure>)
      requires Valid()
      modifies this`branch, this`history
      ensures Valid() && history == old(history) + [branch]
      ensures r.Ok? ==> n < |branch| && 1 <= id <= |branch[n].demands| && r.value == branch[n].demands[id - 1]
      ensures calm ==> branch == old(branch) && (n < |branch| && 1 <= id <= |branch[n].demands| ==> r.Ok?)
    {
      Await();
      r := if n < |branch| && 1 <= id <= |branch[n].demands| then Ok(branch[n].demands[id - 1]) else Err(CallFailed);
      if !calm {
        if * { r := Err(CallFailed); }
      }
    }
  }
}
