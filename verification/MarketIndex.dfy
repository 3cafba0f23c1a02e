/** The in-memory demand index of the backend: a full read at the first refresh, later only the demands that the
    logs since the last indexed block name, and what makes the second as good as the first. */
module MarketIndex {
  import opened Wrappers
  import opened Sets
  import opened Chain

  datatype Config = Config(maxWindows: nat, maxDemands: nat)

  const WINDOW := 100

  datatype IndexError = WrongDeployment | BudgetSpent | TooManyWindows | OverCapacity | Reorganised | RpcFailed

  /** An error that has to do with the chain or the limits, not with how the index calls itself. */
  predicate Mishap(e: IndexError) {
    e != TooManyWindows && e != WrongDeployment
  }

  // ---------------------------------------------------------------- what the contract promises

  /** Block n carries a log with this demand's id. */
  predicate Announces(h: Hash, n: nat, id: nat) {
    n < |h| && exists l :: l in h[n].logs && l.demandId == Some(id)
  }

  function DemandCount(h: Hash): nat
    requires |h| > 0
  {
    |h[|h| - 1].demands|
  }

  predicate SameOrAnnounced(h: Hash, n: nat, id: nat)
    requires 0 < n < |h| && 1 <= id <= |h[n - 1].demands| <= |h[n].demands|
  {
    h[n].demands[id - 1] == h[n - 1].demands[id - 1] || Announces(h, n, id)
  }

  /** A stored demand changes only in a block with a log that carries its id, and none disappears. */
  ghost predicate ChangesLogged(h: Hash) {
    forall n | 0 < n < |h| :: BlockLogged(h, n)
  }

  ghost predicate BlockLogged(h: Hash, n: nat)
    requires 0 < n < |h|
  {
    |h[n - 1].demands| <= |h[n].demands| && forall id | 1 <= id <= |h[n - 1].demands| :: SameOrAnnounced(h, n, id)
  }

  predicate IsId(id: nat, count: nat) {
    1 <= id <= count
  }

  function Ids(count: nat): set<nat> {
    set id: nat | 1 <= id <= count && IsId(id, count)
  }

  lemma {:induction false} IdsSize(count: nat)
    ensures |Ids(count)| == count
  {
    if count > 0 {
      IdsSize(count - 1);
      assert Ids(count) == Ids(count - 1) + {count};
    }
  }

  /** The demands of the last block of h: what a full read at that block returns. */
  function Full(h: Hash): map<nat, Demand>
    requires |h| > 0
  {
    map id | id in Ids(DemandCount(h)) :: h[|h| - 1].demands[id - 1]
  }

  ghost predicate Covers(ids: set<nat>, h: Hash, from: nat) {
    forall n, id | from <= n && Announces(h, n, id) :: id in ids
  }

  lemma {:induction false} Unannounced(h: Hash, m: nat, n: nat, id: nat)
    requires ChangesLogged(h) && m <= n < |h| && 1 <= id <= |h[m].demands|
    requires forall k | m < k <= n :: !Announces(h, k, id)
    ensures id <= |h[n].demands| && h[n].demands[id - 1] == h[m].demands[id - 1]
    decreases n
  {
    if m < n {
      Unannounced(h, m, n - 1, id);
      assert BlockLogged(h, n);
      assert SameOrAnnounced(h, n, id);
    }
  }

  lemma {:induction false} NoneLost(h: Hash, m: nat, n: nat)
    requires ChangesLogged(h) && m <= n < |h|
    ensures |h[m].demands| <= |h[n].demands|
    decreases n
  {
    if m < n {
      NoneLost(h, m, n - 1);
      assert BlockLogged(h, n);
    }
  }

  lemma LoggedBelow(h: Hash, h': Hash)
    requires ChangesLogged(h') && h <= h'
    ensures ChangesLogged(h)
  {
    forall n | 0 < n < |h| ensures BlockLogged(h, n) {
      assert BlockLogged(h', n);
      forall id | 1 <= id <= |h[n - 1].demands| ensures SameOrAnnounced(h, n, id) {
        assert SameOrAnnounced(h', n, id);
      }
    }
  }

  ghost predicate Answered(entries: map<nat, Demand>, h: Hash)
    requires |h| > 0
  {
    forall id | id in entries :: 1 <= id <= DemandCount(h) && entries[id] == h[|h| - 1].demands[id - 1]
  }

  lemma AnsweredAll(table: map<nat, Demand>, h: Hash)
    requires |h| > 0 && Answered(table, h) && table.Keys == Ids(DemandCount(h))
    ensures table == Full(h)
  {
    assert table.Keys == Full(h).Keys;
  }

  /** A demand that no log names keeps its entry. */
  lemma StillAnswered(entries: map<nat, Demand>, updates: map<nat, Demand>, h: Hash, h': Hash)
    requires |h| > 0 && h <= h' && ChangesLogged(h')
    requires Answered(entries, h) && Covers(updates.Keys, h', |h|) && Answered(updates, h')
    ensures Answered(entries + updates, h')
  {
    var m, n := |h| - 1, |h'| - 1;
    NoneLost(h', m, n);
    forall id | id in entries && id !in updates
      ensures id <= DemandCount(h') && h'[n].demands[id - 1] == entries[id]
    {
      Unannounced(h', m, n, id);
    }
  }

  /** Reading again the demands that are named or missing turns the full map of h into that of its descendant. */
  lemma UpdatedIsFull(entries: map<nat, Demand>, updates: map<nat, Demand>, h: Hash, h': Hash)
    requires |h| > 0 && h <= h' && ChangesLogged(h')
    requires entries == Full(h) && Covers(updates.Keys, h', |h|)
    requires Answered(updates, h')
    requires forall id: nat | 1 <= id <= DemandCount(h') :: id in entries || id in updates
    ensures entries + updates == Full(h')
  {
    StillAnswered(entries, updates, h, h');
    assert (entries + updates).Keys == Ids(DemandCount(h'));
    AnsweredAll(entries + updates, h');
  }

  // ---------------------------------------------------------------- a chain on which no refresh can fail

  predicate AnswerFits(c: Branch, start: nat, end: nat, config: Config) {
    |LogsBetween(c, start, end)| <= config.maxDemands * 10
  }

  predicate KnownId(l: Log, c: Branch) {
    l.demandId.Some? ==> 1 <= l.demandId.value <= DemandCount(c)
  }

  /** No more demands and logs than the limits allow, and every log that names a demand names one that exists. */
  ghost predicate Roomy(c: Branch, config: Config) {
    && DemandCount(c) <= config.maxDemands
    && (forall n, l | 0 <= n < |c| && l in c[n].logs :: KnownId(l, c))
    && (forall start, end | 0 <= start <= end < |c| && end - start < WINDOW :: AnswerFits(c, start, end, config))
  }

  /** The node has stopped changing, at the block of h. */
  ghost predicate Resting(node: Node, h: Hash, config: Config)
    reads node
  {
    node.calm && node.branch == h && Roomy(node.branch, config)
  }

  lemma KnownIdsOnly(c: Branch, start: nat, end: nat, config: Config, ids: set<nat>)
    requires Roomy(c, config) && end < |c|
    requires forall id: nat :: id in ids <==> NamesId(LogsBetween(c, start, end), id)
    ensures ids <= Ids(DemandCount(c))
  {
    LogsAreLogs(c, start, end + 1);
    var raws := LogsBetween(c, start, end);
    forall id | id in ids ensures id in Ids(DemandCount(c)) {
      var i :| 0 <= i < |raws| && raws[i].demandId == Some(id);
      assert FromBlocks(raws[i], c, start, end + 1);
      var n: nat, k: nat :| start <= n < end + 1 && IsLog(raws[i], c, n, k);
      assert KnownId(c[n].logs[k], c);
    }
  }

  // ---------------------------------------------------------------- remote reads

  /** The hash stays canonical at every instant from `since` on. */
  ghost predicate StaysOn(history: seq<Branch>, since: nat, h: Hash) {
    forall at | since <= at < |history| :: h <= history[at]
  }

  method Check(node: Node) returns (r: Result<(), IndexError>)
    ensures r.Ok? || r == Err(BudgetSpent)
    ensures node.calm ==> r.Ok?
  {
    r := Ok(());
    if !node.calm {
      if * { r := Err(BudgetSpent); }
    }
  }

  method HeadBlock(node: Node) returns (r: Result<Header, IndexError>)
    requires node.Valid()
    modifies node`branch, node`history
    ensures node.Valid() && node.history == old(node.history) + [node.branch]
    ensures r.Ok? ==> r.value == HeaderAt(node.branch, |node.branch| - 1) && r.value.hash == node.branch
    ensures r.Err? ==> r.error == RpcFailed
    ensures node.calm ==> node.branch == old(node.branch) && r.Ok?
  {
    var head := node.GetHead();
    assert node.branch[..|node.branch|] == node.branch;
    r := if head.Ok? then Ok(head.value) else Err(RpcFailed);
  }

  method BlockAt(node: Node, n: nat) returns (r: Result<Header, IndexError>)
    requires node.Valid()
    modifies node`branch, node`history
    ensures node.Valid() && node.history == old(node.history) + [node.branch]
    ensures r.Ok? ==> n < |node.branch| && r.value == HeaderAt(node.branch, n)
    ensures r.Err? ==> r.error == RpcFailed
    ensures node.calm ==> node.branch == old(node.branch) && (n < |node.branch| ==> r.Ok?)
  {
    var block := node.GetBlock(n);
    r := if block.Ok? then Ok(block.value) else Err(RpcFailed);
  }

  method NextId(node: Node, h: Hash, config: Config) returns (r: Result<nat, IndexError>)
    requires node.Valid() && |h| > 0
    modifies node`branch, node`history
    ensures node.Valid() && node.history == old(node.history) + [node.branch]
    ensures r.Ok? && h <= node.branch ==> r.value == DemandCount(h) + 1
    ensures r.Ok? ==> 1 <= r.value <= config.maxDemands + 1
    ensures r.Err? ==> Mishap(r.error)
    ensures node.calm ==> node.branch == old(node.branch)
    ensures Resting(node, h, config) ==> r.Ok?
  {
    var next := node.ReadNextDemandId(|h| - 1);
    if next.Err? { return Err(RpcFailed); }
    var _ :- Check(node);
    if next.value < 1 || next.value - 1 > config.maxDemands { return Err(OverCapacity); }
    r := Ok(next.value);
  }

  /** One entry. Its parts come from separate reads, each of which the node may answer from another branch. */
  method ReadEntry(node: Node, id: nat, h: Hash) returns (r: Result<Demand, IndexError>)
    requires node.Valid() && |h| > 0
    modifies node`branch, node`history
    ensures node.Valid() && old(node.history) <= node.history
    ensures r.Ok? && StaysOn(node.history, old(|node.history|), h) ==>
              1 <= id <= DemandCount(h) && r.value == h[|h| - 1].demands[id - 1]
    ensures r.Err? ==> r.error == RpcFailed
    ensures node.calm ==> node.branch == old(node.branch) && (node.branch == h && id in Ids(DemandCount(h)) ==> r.Ok?)
  {
    var data := node.ReadDemand(id, |h| - 1);
    ghost var seen := node.history;
    var progress := node.ReadDemand(id, |h| - 1);
    assert node.history[|seen| - 1] == seen[|seen| - 1];
    if data.Err? || progress.Err? { return Err(RpcFailed); }
    r := Ok(Demand(data.value.committed, progress.value.details));
  }

  lemma StaysOnBefore(history: seq<Branch>, later: seq<Branch>, since: nat, since': nat, h: Hash)
    requires StaysOn(later, since, h) && history <= later && since <= since'
    ensures StaysOn(history, since', h)
  {
    forall at | since' <= at < |history| ensures h <= history[at] {
      assert later[at] == history[at];
    }
  }

  method ReadEntries(node: Node, ids: set<nat>, h: Hash) returns (r: Result<map<nat, Demand>, IndexError>)
    requires node.Valid() && |h| > 0
    modifies node`branch, node`history
    ensures node.Valid() && old(node.history) <= node.history
    ensures r.Ok? ==> r.value.Keys == ids
    ensures r.Ok? && StaysOn(node.history, old(|node.history|), h) ==> Answered(r.value, h)
    ensures r.Err? ==> Mishap(r.error)
    ensures node.calm ==> node.branch == old(node.branch) && (node.branch == h && ids <= Ids(DemandCount(h)) ==> r.Ok?)
  {
    var left := ids;
    var entries: map<nat, Demand> := map[];
    ghost var since := |node.history|;
    while left != {}
      invariant node.Valid() && old(node.history) <= node.history
      invariant entries.Keys == ids - left && left <= ids
      invariant node.calm ==> node.branch == old(node.branch)
      invariant StaysOn(node.history, since, h) ==> Answered(entries, h)
      decreases left
    {
      var id :| id in left;
      var _ :- Check(node);
      ghost var before := node.history;
      var entry :- ReadEntry(node, id, h);
      if StaysOn(node.history, since, h) {
        StaysOnBefore(before, node.history, since, since, h);
        StaysOnBefore(node.history, node.history, since, |before|, h);
      }
      entries := entries[id := entry];
      left := left - {id};
    }
    r := Ok(entries);
  }

  predicate NamesId(raws: seq<RawLog>, id: nat) {
    exists i :: 0 <= i < |raws| && raws[i].demandId == Some(id)
  }

  /** Every log that names a demand counts, whatever else it is. */
  method NamedIds(raws: seq<RawLog>) returns (ids: set<nat>)
    ensures forall id: nat :: id in ids <==> NamesId(raws, id)
  {
    ids := {};
    for i := 0 to |raws|
      invariant forall id: nat :: id in ids <==> NamesId(raws[..i], id)
    {
      assert forall id: nat :: NamesId(raws[..i + 1], id) <==>
               NamesId(raws[..i], id) || raws[i].demandId == Some(id) by {
        OneMoreLog(raws, i);
      }
      if raws[i].demandId.Some? { ids := ids + {raws[i].demandId.value}; }
    }
    assert raws[..|raws|] == raws;
  }

  lemma OneMoreLog(raws: seq<RawLog>, i: nat)
    requires i < |raws|
    ensures forall id: nat :: NamesId(raws[..i + 1], id) <==> NamesId(raws[..i], id) || raws[i].demandId == Some(id)
  {
    forall id: nat | NamesId(raws[..i], id) || raws[i].demandId == Some(id) ensures NamesId(raws[..i + 1], id) {
      if raws[i].demandId == Some(id) {
        assert raws[..i + 1][i].demandId == Some(id);
      } else {
        var k :| 0 <= k < i && raws[..i][k].demandId == Some(id);
        assert raws[..i + 1][k].demandId == Some(id);
      }
    }
  }

  /** Some block of the range carries a log with this demand's id. */
  ghost predicate AnnouncedIn(c: Branch, from: nat, upTo: nat, id: nat) {
    exists n :: from <= n <= upTo && Announces(c, n, id)
  }

  /** One of the logs from the k-th on names this demand. */
  ghost predicate NamedSince(answers: seq<RawLog>, k: nat, id: nat) {
    exists i :: k <= i < |answers| && answers[i].demandId == Some(id)
  }

  lemma StillNamed(answers: seq<RawLog>, more: seq<RawLog>, k: nat, id: nat)
    requires k <= |answers| && (NamedSince(answers, k, id) || NamesId(more, id))
    ensures NamedSince(answers + more, k, id)
  {
    if NamedSince(answers, k, id) {
      var i :| k <= i < |answers| && answers[i].demandId == Some(id);
      assert (answers + more)[i].demandId == Some(id);
    } else {
      var i :| 0 <= i < |more| && more[i].demandId == Some(id);
      assert (answers + more)[|answers| + i].demandId == Some(id);
    }
  }

  /** The ids come from the logs answered from the k-th on. */
  ghost predicate OnlyNamed(ids: set<nat>, answers: seq<RawLog>, k: nat) {
    forall id | id in ids :: NamedSince(answers, k, id)
  }

  /** The ids come from logs of these blocks. */
  ghost predicate OnlyAnnounced(ids: set<nat>, c: Branch, from: nat, upTo: nat) {
    forall id | id in ids :: AnnouncedIn(c, from, upTo, id)
  }

  lemma NamedAreAnnounced(c: Branch, start: nat, end: nat, ids: set<nat>)
    requires forall id: nat :: id in ids <==> NamesId(LogsBetween(c, start, end), id)
    ensures OnlyAnnounced(ids, c, start, end)
  {
    LogsAreLogs(c, start, end + 1);
    var raws := LogsBetween(c, start, end);
    forall id | id in ids ensures AnnouncedIn(c, start, end, id) {
      var i :| 0 <= i < |raws| && raws[i].demandId == Some(id);
      assert FromBlocks(raws[i], c, start, end + 1);
      var n: nat, k: nat :| start <= n < end + 1 && IsLog(raws[i], c, n, k);
      assert c[n].logs[k] in c[n].logs && Announces(c, n, id);
    }
  }

  ghost predicate CoversRange(ids: set<nat>, h: Hash, from: nat, upTo: nat) {
    forall n, id | from <= n <= upTo && Announces(h, n, id) :: id in ids
  }

  lemma AnswerCovers(raws: seq<RawLog>, ids: set<nat>, c: Branch, h: Hash, from: nat, upTo: nat)
    requires Honest(raws, c, from, upTo) && h <= c
    requires forall id: nat :: id in ids <==> NamesId(raws, id)
    ensures CoversRange(ids, h, from, upTo)
  {
    forall n, id | from <= n <= upTo && Announces(h, n, id) ensures id in ids {
      var l :| l in h[n].logs && l.demandId == Some(id);
      assert HasAllOf(raws, c[..n + 1], c[n].logs) && c[n] == h[n];
      var raw := RawOf(c[..n + 1], l);
      var i :| 0 <= i < |raws| && raws[i] == raw;
    }
  }

  function Windows(from: nat, upTo: nat): nat
    requires from <= upTo
  {
    (upTo - from) / WINDOW + 1
  }

  /** The ids that one answer names. */
  method TakeIds(raws: seq<RawLog>, config: Config, ghost c: Branch, ghost h: Hash, ghost start: nat, ghost end: nat)
    returns (r: Result<set<nat>, IndexError>)
    requires Honest(raws, c, start, end)
    ensures r.Ok? ==> |raws| <= config.maxDemands * 10 && (h <= c ==> CoversRange(r.value, h, start, end))
    ensures r.Ok? ==> forall id | id in r.value :: NamesId(raws, id)
    ensures r.Ok? && raws == LogsBetween(c, start, end) ==> OnlyAnnounced(r.value, c, start, end)
    ensures r.Err? ==> r.error == OverCapacity && |raws| > config.maxDemands * 10
    ensures r.Ok? && raws == LogsBetween(c, start, end) && end < |c| && Roomy(c, config) ==>
              r.value <= Ids(DemandCount(c))
  {
    if |raws| > config.maxDemands * 10 { return Err(OverCapacity); }
    var ids := NamedIds(raws);
    if h <= c { AnswerCovers(raws, ids, c, h, start, end); }
    if raws == LogsBetween(c, start, end) { NamedAreAnnounced(c, start, end, ids); }
    if raws == LogsBetween(c, start, end) && end < |c| && Roomy(c, config) { KnownIdsOnly(c, start, end, config, ids); }
    r := Ok(ids);
  }

  lemma RoomyWindow(c: Branch, start: nat, end: nat, config: Config)
    requires Roomy(c, config) && start <= end < |c| && end - start < WINDOW
    ensures |LogsBetween(c, start, end)| <= config.maxDemands * 10
  {
    assert AnswerFits(c, start, end, config);
  }

  lemma StillOnlyNamed(ids: set<nat>, more: set<nat>, answers: seq<RawLog>, later: seq<RawLog>, k: nat)
    requires answers <= later && k <= |answers| && OnlyNamed(ids, answers, k) && OnlyNamed(more, later, |answers|)
    ensures OnlyNamed(ids + more, later, k)
  {
    forall id | id in ids ensures NamedSince(later, k, id) {
      assert later == answers + later[|answers|..];
      StillNamed(answers, later[|answers|..], k, id);
    }
  }

  lemma StillAnnounced(ids: set<nat>, more: set<nat>, c: Branch, start: nat, end: nat, from: nat, upTo: nat)
    requires OnlyAnnounced(ids, c, from, upTo) && OnlyAnnounced(more, c, start, end) && from <= start && end <= upTo
    ensures OnlyAnnounced(ids + more, c, from, upTo)
  {
    forall id | id in more ensures AnnouncedIn(c, from, upTo, id) {
      assert AnnouncedIn(c, start, end, id);
    }
  }

  method QueryWindow(node: Node, start: nat, end: nat, config: Config, ghost h: Hash)
    returns (r: Result<set<nat>, IndexError>)
    requires node.Valid() && start <= end && end - start < WINDOW
    modifies node`branch, node`history, node`answers
    ensures node.Valid() && node.history == old(node.history) + [node.branch]
    ensures r.Ok? && h <= node.branch ==> CoversRange(r.value, h, start, end)
    ensures old(node.answers) <= node.answers
    ensures r.Ok? ==> OnlyNamed(r.value, node.answers, |old(node.answers)|)
    ensures r.Ok? && node.calm ==> OnlyAnnounced(r.value, node.branch, start, end)
    ensures r.Err? ==> Mishap(r.error)
    ensures node.calm ==> node.branch == old(node.branch)
    ensures Resting(node, h, config) && end < |h| ==> r.Ok? && r.value <= Ids(DemandCount(h))
  {
    var logs := node.GetLogs(start, end);
    if logs.Err? { return Err(RpcFailed); }
    if Resting(node, h, config) && end < |h| { RoomyWindow(node.branch, start, end, config); }
    r := TakeIds(logs.value, config, node.branch, h, start, end);
    if r.Ok? {
      forall id | id in r.value ensures NamedSince(node.answers, |old(node.answers)|, id) {
        StillNamed(old(node.answers), logs.value, |old(node.answers)|, id);
      }
    }
  }

  lemma CoversOn(ids: set<nat>, more: set<nat>, h: Hash, from: nat, start: nat, end: nat)
    requires start > from ==> CoversRange(ids, h, from, start - 1)
    requires CoversRange(more, h, start, end)
    ensures CoversRange(ids + more, h, from, end)
  {
  }

  lemma Bounded(ids: set<nat>, count: nat, most: nat)
    requires ids <= Ids(count) && count <= most
    ensures |ids| <= most
  {
    IdsSize(count);
    SubsetSize(ids, Ids(count));
  }

  /** The ids named in the range, window by window; too wide a range is refused before any query. */
  method ChangedDemandIds(node: Node, from: nat, upTo: nat, config: Config, ghost h: Hash)
    returns (r: Result<set<nat>, IndexError>)
    requires node.Valid()
    modifies node`branch, node`history, node`answers
    ensures node.Valid() && old(node.history) <= node.history
    ensures r == Err(TooManyWindows) <==> from <= upTo && Windows(from, upTo) > config.maxWindows
    ensures r.Err? ==> r.error == TooManyWindows || Mishap(r.error)
    ensures r.Ok? ==> |r.value| <= config.maxDemands
    ensures r.Ok? && StaysOn(node.history, old(|node.history|), h) ==> CoversRange(r.value, h, from, upTo)
    ensures old(node.answers) <= node.answers
    ensures r.Ok? ==> OnlyNamed(r.value, node.answers, |old(node.answers)|)
    ensures r.Ok? && node.calm ==> OnlyAnnounced(r.value, node.branch, from, upTo)
    ensures node.calm ==> node.branch == old(node.branch)
    ensures Resting(node, h, config) && upTo < |h| && r != Err(TooManyWindows) ==>
              r.Ok? && r.value <= Ids(DemandCount(h))
  {
    if from > upTo { return Ok({}); }
    if Windows(from, upTo) > config.maxWindows { return Err(TooManyWindows); }
    var ids: set<nat> := {};
    var start := from;
    ghost var since := |node.history|;
    while start <= upTo
      invariant node.Valid() && old(node.history) <= node.history && from <= start <= upTo + 1 &&
                  |ids| <= config.maxDemands
      invariant StaysOn(node.history, since, h) && start > from ==> CoversRange(ids, h, from, start - 1)
      invariant node.calm ==> node.branch == old(node.branch) && OnlyAnnounced(ids, node.branch, from, upTo)
      invariant old(node.answers) <= node.answers && OnlyNamed(ids, node.answers, |old(node.answers)|)
      invariant Resting(node, h, config) && upTo < |h| ==> ids <= Ids(DemandCount(h))
      decreases upTo + 1 - start
    {
      var _ :- Check(node);
      var end := if start + (WINDOW - 1) > upTo then upTo else start + (WINDOW - 1);
      ghost var before, known := node.history, node.answers;
      var more :- QueryWindow(node, start, end, config, h);
      if StaysOn(node.history, since, h) {
        StaysOnBefore(before, node.history, since, since, h);
        CoversOn(ids, more, h, from, start, end);
      }
      StillOnlyNamed(ids, more, known, node.answers, |old(node.answers)|);
      if node.calm { StillAnnounced(ids, more, node.branch, start, end, from, upTo); }
      ids := ids + more;
      if Resting(node, h, config) && upTo < |h| { Bounded(ids, DemandCount(h), config.maxDemands); }
      if |ids| > config.maxDemands { return Err(OverCapacity); }
      start := end + 1;
    }
    r := Ok(ids);
  }

  /** The guard before an incremental refresh leaves no range that is too wide. */
  lemma GuardSuffices(last: nat, current: nat, maxWindows: nat)
    requires last < current && current - last <= maxWindows * WINDOW
    ensures Windows(last + 1, current) <= maxWindows
  {
    assert current - (last + 1) < maxWindows * WINDOW;
  }

  // ---------------------------------------------------------------- the index

  /** Each of `done` took a version of its own above v0, the others kept theirs. */
  ghost predicate Stamped(before: map<nat, nat>, after: map<nat, nat>, done: set<nat>, v0: nat, v: nat) {
    && after.Keys == before.Keys + done
    && (forall id | id in done :: v0 < after[id] <= v)
    && (forall i, j | i in done && j in done && i != j :: after[i] != after[j])
    && (forall id | id in before && id !in done :: after[id] == before[id])
  }

  /** The entries once all updates but those left are written. */
  function Written(before: map<nat, Demand>, updates: map<nat, Demand>, left: set<nat>): map<nat, Demand> {
    before + (updates - left)
  }

  lemma NothingWritten(before: map<nat, Demand>, updates: map<nat, Demand>)
    ensures Written(before, updates, updates.Keys) == before
  {
  }

  lemma AllWritten(before: map<nat, Demand>, updates: map<nat, Demand>)
    ensures Written(before, updates, {}) == before + updates
  {
    assert updates - {} == updates;
  }

  predicate Parted(done: set<nat>, left: set<nat>, all: set<nat>) {
    done + left == all && done !! left
  }

  lemma OneOver(done: set<nat>, left: set<nat>, all: set<nat>, id: nat)
    requires Parted(done, left, all) && id in left
    ensures Parted(done + {id}, left - {id}, all) && id in all && id !in done
  {
  }

  lemma WrittenMore(before: map<nat, Demand>, updates: map<nat, Demand>, left: set<nat>, id: nat)
    requires id in left && id in updates
    ensures Written(before, updates, left)[id := updates[id]] == Written(before, updates, left - {id})
  {
  }

  lemma StampedMore(before: map<nat, nat>, after: map<nat, nat>, done: set<nat>, v0: nat, v: nat, id: nat)
    requires Stamped(before, after, done, v0, v) && id !in done && v0 <= v
    ensures Stamped(before, after[id := v + 1], done + {id}, v0, v + 1)
  {
  }

  /** What no log from the k-th on names keeps its version. */
  ghost predicate KeptUnlessNamed(before: map<nat, nat>, after: map<nat, nat>, answers: seq<RawLog>, k: nat) {
    forall id | id in before && !NamedSince(answers, k, id) :: id in after && after[id] == before[id]
  }

  /** What no block of the range announces keeps its version. */
  ghost predicate KeptUnlessAnnounced(before: map<nat, nat>, after: map<nat, nat>, c: Branch, from: nat, upTo: nat) {
    forall id | id in before && !AnnouncedIn(c, from, upTo, id) :: id in after && after[id] == before[id]
  }

  /** A full read at this branch is due: the indexed block is not on it, or too far behind. */
  ghost predicate RebuildDue(h: Hash, c: Branch, config: Config) {
    !(h <= c) || |c| - |h| > config.maxWindows * WINDOW
  }

  lemma PrefixIs(h: Hash, c: Branch)
    requires |h| <= |c|
    ensures h <= c <==> h == c[..|h|]
  {
  }

  ghost predicate WasDue(h: Hash, history: seq<Branch>, since: nat, config: Config) {
    exists at :: since <= at < |history| && RebuildDue(h, history[at], config)
  }

  ghost predicate KeptBut(before: map<nat, nat>, after: map<nat, nat>, updated: set<nat>) {
    forall id | id in before && id !in updated :: id in after && after[id] == before[id]
  }

  lemma OthersKept(before: map<nat, nat>, after: map<nat, nat>, updated: set<nat>, answers: seq<RawLog>, k: nat)
    requires KeptBut(before, after, updated) && OnlyNamed(updated * before.Keys, answers, k)
    ensures KeptUnlessNamed(before, after, answers, k)
  {
    forall id | id in before && !NamedSince(answers, k, id) ensures id in after && after[id] == before[id] {
      assert id !in updated * before.Keys;
    }
  }

  lemma OthersKeptToo(before: map<nat, nat>, after: map<nat, nat>, updated: set<nat>, c: Branch, from: nat, upTo: nat)
    requires KeptBut(before, after, updated) && OnlyAnnounced(updated * before.Keys, c, from, upTo)
    ensures KeptUnlessAnnounced(before, after, c, from, upTo)
  {
    forall id | id in before && !AnnouncedIn(c, from, upTo, id) ensures id in after && after[id] == before[id] {
      assert id !in updated * before.Keys;
    }
  }

  class DemandIndex {
    var key: Option<nat>
    var ready: bool
    var entries: map<nat, Demand>
    var lastBlock: nat
    var hash: Option<Hash>
    var version: nat
    /** The version at which each entry was last read. */
    var entryVersions: map<nat, nat>

    /** The index is the full read at its block, on the chain its hash names. */
    ghost predicate Accurate()
      reads this
    {
      && (forall id | id in entryVersions :: entryVersions[id] <= version)
      && entryVersions.Keys == entries.Keys
      && (ready ==> && hash.Some? && |hash.value| == lastBlock + 1
                    && (ChangesLogged(hash.value) ==> entries == Full(hash.value)))
    }

    constructor ()
      ensures Accurate() && !ready && key.None? && entries == map[]
    {
      key, ready, entries, lastBlock, hash, version, entryVersions := None, false, map[], 0, None, 0, map[];
    }

    /** Everything a refresh may change, in one value. */
    ghost function Contents(): (bool, map<nat, Demand>, nat, Option<Hash>, nat, map<nat, nat>)
      reads this
    {
      (ready, entries, lastBlock, hash, version, entryVersions)
    }

    /** Entries that were read again carry a version of this refresh, the others the one they had. */
    twostate predicate Restamped()
      reads this
    {
      && old(version) <= version
      && forall id | id in entries && id in entryVersions && entryVersions[id] <= old(version) ::
           && id in old(entries) && entries[id] == old(entries)[id]
           && id in old(entryVersions) && entryVersions[id] == old(entryVersions)[id]
    }

    method Adopt(whole: map<nat, Demand>, block: Header)
      requires Accurate() && |block.hash| == block.number + 1 && whole == Full(block.hash)
      modifies this
      ensures Accurate() && ready && hash == Some(block.hash) && entries == whole && key == old(key)
      ensures version == old(version) + 1 && forall id | id in entries :: entryVersions[id] == version
    {
      entries := whole;
      version := version + 1;
      entryVersions := map id | id in whole :: version;
      lastBlock, hash, ready := block.number, Some(block.hash), true;
    }

    /** Reads everything at the head; nothing is kept unless the head is still the same afterwards. */
    method RebuildIndex(node: Node, config: Config) returns (r: Result<(), IndexError>)
      requires node.Valid() && Accurate()
      modifies this, node
      ensures node.Valid() && Accurate() && key == old(key) && old(node.history) <= node.history
      ensures r.Ok? ==> ready && entries == Full(hash.value) && hash.value <= node.branch && Restamped()
      ensures r.Err? ==> Contents() == old(Contents()) && Mishap(r.error)
      ensures node.calm ==> node.branch == old(node.branch)
      ensures Resting(node, node.branch, config) ==> r.Ok? && hash == Some(node.branch)
    {
      node.BeginScan();
      var _ :- Check(node);
      var read :- ReadWhole(node, config);
      var _ :- Check(node);
      Adopt(read.1, read.0);
      r := Ok(());
    }

    method StampOne(id: nat, d: Demand, ghost before: map<nat, nat>, ghost done: set<nat>, ghost v0: nat)
      requires Stamped(before, entryVersions, done, v0, version) && id !in done && v0 <= version
      modifies this`entries, this`entryVersions, this`version
      ensures Stamped(before, entryVersions, done + {id}, v0, version) && version == old(version) + 1
      ensures entries == old(entries)[id := d]
    {
      StampedMore(before, entryVersions, done, v0, version, id);
      version := version + 1;
      entries, entryVersions := entries[id := d], entryVersions[id := version];
    }

    /** Each update takes the next version. */
    method Stamp(updates: map<nat, Demand>)
      requires entryVersions.Keys == entries.Keys
      modifies this`entries, this`entryVersions, this`version
      ensures entries == old(entries) + updates && entryVersions.Keys == entries.Keys && old(version) <= version
      ensures Stamped(old(entryVersions), entryVersions, updates.Keys, old(version), version)
    {
      var left := updates.Keys;
      ghost var done: set<nat> := {};
      NothingWritten(entries, updates);
      while left != {}
        invariant Parted(done, left, updates.Keys) && old(version) <= version
        invariant entries == Written(old(entries), updates, left)
        invariant Stamped(old(entryVersions), entryVersions, done, old(version), version)
        decreases left
      {
        var id :| id in left;
        WrittenMore(old(entries), updates, left, id);
        OneOver(done, left, updates.Keys, id);
        StampOne(id, updates[id], old(entryVersions), done, old(version));
        left, done := left - {id}, done + {id};
      }
      AllWritten(old(entries), updates);
      assert done == updates.Keys;
    }

    /** The steps of an incremental refresh that write. */
    method Apply(updates: map<nat, Demand>, block: Header)
      requires Accurate() && ready && |block.hash| == block.number + 1 && hash.value <= block.hash
      requires Covers(updates.Keys, block.hash, |hash.value|) && Answered(updates, block.hash)
      requires forall id: nat | 1 <= id <= DemandCount(block.hash) :: id in entries || id in updates
      modifies this
      ensures Accurate() && ready && hash == Some(block.hash) && key == old(key)
      ensures entries == old(entries) + updates && Restamped()
      ensures forall id | id in updates :: entryVersions[id] > old(version)
      ensures KeptBut(old(entryVersions), entryVersions, updates.Keys) && lastBlock == block.number
    {
      if ChangesLogged(block.hash) {
        LoggedBelow(hash.value, block.hash);
        UpdatedIsFull(entries, updates, hash.value, block.hash);
      }
      Stamp(updates);
      lastBlock, hash := block.number, Some(block.hash);
    }

    /** What the incremental refresh reads between its first and its last look at the head. */
    method ReadChanges(node: Node, block: Header, config: Config) returns (r: Result<map<nat, Demand>, IndexError>)
      requires node.Valid() && Accurate() && ready && |block.hash| == block.number + 1
      requires lastBlock < block.number && block.number - lastBlock <= config.maxWindows * WINDOW
      modifies node`branch, node`history, node`answers
      ensures node.Valid() && old(node.history) <= node.history
      ensures r.Ok? && StaysOn(node.history, old(|node.history|), block.hash) ==>
                && Covers(r.value.Keys, block.hash, lastBlock + 1) && Answered(r.value, block.hash)
                && forall id: nat | 1 <= id <= DemandCount(block.hash) :: id in entries || id in r.value
      ensures r.Err? ==> Mishap(r.error)
      ensures node.calm ==> node.branch == old(node.branch)
      ensures Resting(node, block.hash, config) ==> r.Ok?
      ensures r.Ok? ==> OnlyNamed(r.value.Keys * entries.Keys, node.answers, |old(node.answers)|)
      ensures r.Ok? && node.calm ==>
                OnlyAnnounced(r.value.Keys * entries.Keys, node.branch, lastBlock + 1, block.number)
    {
      ghost var since := |node.history|;
      var ids :- NamedOrMissing(node, block, config);
      ghost var read := node.history;
      r := ReadEntries(node, ids, block.hash);
      if StaysOn(node.history, since, block.hash) {
        StaysOnBefore(read, node.history, since, since, block.hash);
        StaysOnBefore(node.history, node.history, since, |read|, block.hash);
      }
    }

    /** The demands to read again: those the logs name, and those that are not indexed yet. */
    method NamedOrMissing(node: Node, block: Header, config: Config) returns (r: Result<set<nat>, IndexError>)
      requires node.Valid() && Accurate() && ready && |block.hash| == block.number + 1
      requires lastBlock < block.number && block.number - lastBlock <= config.maxWindows * WINDOW
      modifies node`branch, node`history, node`answers
      ensures node.Valid() && old(node.history) <= node.history
      ensures r.Ok? && StaysOn(node.history, old(|node.history|), block.hash) ==>
                && Covers(r.value, block.hash, lastBlock + 1)
                && forall id: nat | 1 <= id <= DemandCount(block.hash) :: id in entries || id in r.value
      ensures r.Err? ==> Mishap(r.error)
      ensures node.calm ==> node.branch == old(node.branch)
      ensures Resting(node, block.hash, config) ==> r.Ok? && r.value <= Ids(DemandCount(block.hash))
      ensures r.Ok? ==> OnlyNamed(r.value * entries.Keys, node.answers, |old(node.answers)|)
      ensures r.Ok? && node.calm ==>
                OnlyAnnounced(r.value * entries.Keys, node.branch, lastBlock + 1, block.number)
    {
      GuardSuffices(lastBlock, block.number, config.maxWindows);
      ghost var since := |node.history|;
      var named :- ChangedDemandIds(node, lastBlock + 1, block.number, config, block.hash);
      ghost var seen := node.history;
      var next :- NextId(node, block.hash, config);
      if StaysOn(node.history, since, block.hash) {
        StaysOnBefore(seen, node.history, since, since, block.hash);
        assert block.hash <= node.branch;
      }
      var missing := set id | id in Ids(next - 1) && id !in entries;
      assert (named + missing) * entries.Keys <= named;
      r := Ok(named + missing);
    }

    /** The reads of an incremental refresh up to the last look at the head, which must still be the one that was read
        at instant `headAt`. */
    method ReadConfirmed(node: Node, block: Header, config: Config, ghost headAt: nat)
      returns (r: Result<map<nat, Demand>, IndexError>)
      requires node.Valid() && Accurate() && ready && lastBlock < block.number
      requires block.number - lastBlock <= config.maxWindows * WINDOW
      requires node.mark <= headAt < |node.history| && |block.hash| == block.number + 1 &&
                 block.hash <= node.history[headAt]
      requires hash.value <= node.branch
      modifies node`branch, node`history, node`answers
      ensures node.Valid() && old(node.history) <= node.history
      ensures r.Ok? ==> && hash.value <= block.hash <= node.branch
                        && Covers(r.value.Keys, block.hash, lastBlock + 1) && Answered(r.value, block.hash)
                        && forall id: nat | 1 <= id <= DemandCount(block.hash) :: id in entries || id in r.value
      ensures r.Err? ==> Mishap(r.error)
      ensures node.calm ==> node.branch == old(node.branch)
      ensures Resting(node, block.hash, config) ==> r.Ok?
      ensures r.Ok? ==> OnlyNamed(r.value.Keys * entries.Keys, node.answers, |old(node.answers)|)
      ensures r.Ok? && node.calm ==>
                OnlyAnnounced(r.value.Keys * entries.Keys, node.branch, lastBlock + 1, block.number)
    {
      ghost var checkedAt, first := |node.history| - 1, node.history;
      r := ReadChanges(node, block, config);
      if r.Err? { return; }
      var _ :- Check(node);
      ghost var seen := node.history;
      var canonical :- BlockAt(node, block.number);
      if canonical.hash != block.hash { return Err(Reorganised); }
      assert node.history[headAt] == first[headAt] == seen[headAt] && seen[checkedAt] == first[checkedAt];
      ClosedScan(seen, node.branch, node.mark, headAt, block.hash);
      StaysOnBefore(seen, seen, headAt, |first|, block.hash);
    }

    /** The incremental part of a refresh, once the head has been read at instant `headAt` and the old block checked. */
    method Advance(node: Node, block: Header, config: Config, ghost headAt: nat) returns (r: Result<(), IndexError>)
      requires node.Valid() && Accurate() && ready && lastBlock < block.number
      requires block.number - lastBlock <= config.maxWindows * WINDOW
      requires node.mark <= headAt < |node.history| && |block.hash| == block.number + 1 &&
                 block.hash <= node.history[headAt]
      requires hash.value <= node.branch
      modifies this, node`branch, node`history, node`answers
      ensures node.Valid() && Accurate() && key == old(key) && old(node.history) <= node.history
      ensures r.Ok? ==> ready && hash == Some(block.hash) && hash.value <= node.branch && Restamped()
      ensures r.Err? ==> Contents() == old(Contents()) && Mishap(r.error)
      ensures node.calm ==> node.branch == old(node.branch)
      ensures Resting(node, block.hash, config) ==> r.Ok?
      ensures r.Ok? ==> KeptUnlessNamed(old(entryVersions), entryVersions, node.answers, |old(node.answers)|)
      ensures r.Ok? && node.calm ==>
                KeptUnlessAnnounced(old(entryVersions), entryVersions, node.branch, old(lastBlock) + 1, lastBlock)
    {
      var updates :- ReadConfirmed(node, block, config, headAt);
      var _ :- Check(node);
      Apply(updates, block);
      OthersKept(old(entryVersions), entryVersions, updates.Keys, node.answers, |old(node.answers)|);
      if node.calm {
        OthersKeptToo(old(entryVersions), entryVersions, updates.Keys, node.branch, old(lastBlock) + 1, lastBlock);
      }
      r := Ok(());
    }

    /** A refresh. After it the index is the full read at its block; a failed one changes nothing but the key. Unless
        a full read is due, only what the logs name is read again. */
    method RefreshIndex(node: Node, deployment: nat, config: Config)
      returns (r: Result<(), IndexError>, ghost rebuilt: bool)
      requires node.Valid() && Accurate()
      modifies this, node
      ensures node.Valid() && Accurate()
      ensures r == Err(WrongDeployment) ==> old(key).Some? && old(key) != Some(deployment)
      ensures old(key).Some? && old(key) != Some(deployment) ==> r == Err(WrongDeployment) && key == old(key)
      ensures r.Ok? ==> ready && key == Some(deployment) && hash.value <= node.branch && Restamped()
      ensures r.Err? ==> Contents() == old(Contents()) && r.error != TooManyWindows
      ensures r != Err(WrongDeployment) ==> key == Some(deployment)
      ensures node.calm ==> node.branch == old(node.branch)
      ensures Resting(node, node.branch, config) && r != Err(WrongDeployment) ==> r.Ok? && hash == Some(node.branch)
      ensures rebuilt && old(ready) ==> WasDue(old(hash).value, node.history, |old(node.history)|, config)
      ensures r.Ok? && !rebuilt ==>
                KeptUnlessNamed(old(entryVersions), entryVersions, node.answers, |old(node.answers)|)
      ensures r.Ok? && node.calm && old(ready) && !RebuildDue(old(hash).value, node.branch, config) ==>
                KeptUnlessAnnounced(old(entryVersions), entryVersions, node.branch, old(lastBlock) + 1, lastBlock)
    {
      rebuilt := false;
      if key.Some? && key != Some(deployment) { return Err(WrongDeployment), rebuilt; }
      key := Some(deployment);
      if !ready {
        rebuilt := true;
        r := RebuildIndex(node, config);
        return;
      }
      r, rebuilt := RefreshReady(node, config);
    }

    /** The refresh of an index that has been read before. */
    method RefreshReady(node: Node, config: Config) returns (r: Result<(), IndexError>, ghost rebuilt: bool)
      requires node.Valid() && Accurate() && ready
      modifies this, node
      ensures node.Valid() && Accurate() && key == old(key)
      ensures r.Ok? ==> ready && hash.value <= node.branch && Restamped()
      ensures r.Err? ==> Contents() == old(Contents()) && Mishap(r.error)
      ensures node.calm ==> node.branch == old(node.branch)
      ensures Resting(node, node.branch, config) ==> r.Ok? && hash == Some(node.branch)
      ensures rebuilt ==> WasDue(old(hash).value, node.history, |old(node.history)|, config)
      ensures r.Ok? && !rebuilt ==>
                KeptUnlessNamed(old(entryVersions), entryVersions, node.answers, |old(node.answers)|)
      ensures r.Ok? && node.calm && !RebuildDue(old(hash).value, node.branch, config) ==>
                KeptUnlessAnnounced(old(entryVersions), entryVersions, node.branch, old(lastBlock) + 1, lastBlock)
    {
      rebuilt := false;
      node.BeginScan();
      var read := HeadBlock(node);
      if read.Err? { return Err(read.error), rebuilt; }
      var current := read.value;
      ghost var headAt := |node.history| - 1;
      var checked := Check(node);
      if checked.Err? { return checked, rebuilt; }
      if current.number < lastBlock || current.number - lastBlock > config.maxWindows * WINDOW {
        rebuilt := true;
        assert RebuildDue(hash.value, node.history[headAt], config);
        ghost var before := node.history;
        r := RebuildIndex(node, config);
        assert node.history[headAt] == before[headAt];
        return;
      }
      r, rebuilt := RefreshUpTo(node, current, config, headAt);
    }

    /** The incremental refresh, unless the old block is gone. */
    method RefreshUpTo(node: Node, current: Header, config: Config, ghost headAt: nat)
      returns (r: Result<(), IndexError>, ghost rebuilt: bool)
      requires node.Valid() && Accurate() && ready && lastBlock <= current.number
      requires current.number - lastBlock <= config.maxWindows * WINDOW
      requires node.mark <= headAt < |node.history| && |current.hash| == current.number + 1 &&
                 current.hash <= node.history[headAt]
      modifies this, node
      ensures node.Valid() && Accurate() && key == old(key) && old(node.history) <= node.history
      ensures r.Ok? ==> ready && hash.value <= node.branch && Restamped()
      ensures r.Err? ==> Contents() == old(Contents()) && Mishap(r.error)
      ensures node.calm ==> node.branch == old(node.branch)
      ensures Resting(node, node.branch, config) && current.hash == node.branch ==> r.Ok? && hash == Some(node.branch)
      ensures rebuilt ==> WasDue(old(hash).value, node.history, |old(node.history)|, config)
      ensures r.Ok? && !rebuilt ==>
                KeptUnlessNamed(old(entryVersions), entryVersions, node.answers, |old(node.answers)|)
      ensures r.Ok? && node.calm && !RebuildDue(old(hash).value, node.branch, config) ==>
                KeptUnlessAnnounced(old(entryVersions), entryVersions, node.branch, old(lastBlock) + 1, lastBlock)
    {
      rebuilt := false;
      ghost var seen := node.history;
      if hash.Some? {
        var indexed := BlockAt(node, lastBlock);
        if indexed.Err? { return Err(indexed.error), rebuilt; }
        if Some(indexed.value.hash) != hash {
          rebuilt := true;
          ghost var before := node.history;
          PrefixIs(hash.value, before[|seen|]);
          assert RebuildDue(hash.value, before[|seen|], config);
          r := RebuildIndex(node, config);
          assert node.history[|seen|] == before[|seen|];
          return;
        }
      }
      assert node.history[headAt] == seen[headAt];
      if current.number == lastBlock {
        assert hash.value == node.branch[..lastBlock + 1] &&
                 (current.hash == node.branch ==> hash.value == node.branch);
        return Ok(()), rebuilt;
      }
      r := Advance(node, current, config, headAt);
    }
  }

  method ReadAll(node: Node, h: Hash, config: Config) returns (r: Result<map<nat, Demand>, IndexError>)
    requires node.Valid() && |h| > 0
    modifies node`branch, node`history
    ensures node.Valid() && old(node.history) <= node.history
    ensures r.Ok? && StaysOn(node.history, old(|node.history|), h) ==> r.value == Full(h)
    ensures r.Err? ==> Mishap(r.error)
    ensures node.calm ==> node.branch == old(node.branch)
    ensures Resting(node, h, config) ==> r.Ok?
  {
    ghost var since := |node.history|;
    var _ :- Check(node);
    var next :- NextId(node, h, config);
    ghost var seen := node.history;
    var entries :- ReadEntries(node, Ids(next - 1), h);
    if StaysOn(node.history, since, h) {
      assert seen[|seen| - 1] == node.history[|seen| - 1];
      StaysOnBefore(node.history, node.history, since, |seen|, h);
      assert entries.Keys == Full(h).Keys;
    }
    r := Ok(entries);
  }

  /** The head, all demands at it, and the head's block again. */
  method ReadWhole(node: Node, config: Config) returns (r: Result<(Header, map<nat, Demand>), IndexError>)
    requires node.Valid()
    modifies node`branch, node`history
    ensures node.Valid() && old(node.history) <= node.history
    ensures r.Ok? ==> && |r.value.0.hash| == r.value.0.number + 1 && r.value.0.hash <= node.branch
                      && r.value.1 == Full(r.value.0.hash)
    ensures r.Err? ==> Mishap(r.error)
    ensures node.calm ==> node.branch == old(node.branch)
    ensures Resting(node, node.branch, config) ==> r.Ok? && r.value.0.hash == node.branch
  {
    var block :- HeadBlock(node);
    ghost var headAt := |node.history| - 1;
    var whole :- ReadAll(node, block.hash, config);
    ghost var seen := node.history;
    var canonical :- BlockAt(node, block.number);
    if canonical.hash != block.hash { return Err(Reorganised); }
    ClosedScan(seen, node.branch, node.mark, headAt, block.hash);
    r := Ok((block, whole));
  }

  /** The head seen first and again last was canonical all the time in between. */
  lemma ClosedScan(seen: seq<Branch>, last: Branch, mark: nat, headAt: nat, h: Hash)
    requires NoReinstatement(seen + [last], mark) && mark <= headAt < |seen|
    requires h <= seen[headAt] && h <= last
    ensures StaysOn(seen, headAt, h)
  {
    var all := seen + [last];
    forall at | headAt <= at < |seen| ensures h <= seen[at] {
      Between(all, mark, headAt, at, |seen|, h);
    }
  }

  /** Any number of refreshes, the chain moving as it likes in between: the index is always a full read. */
  method Run(refreshes: nat, genesis: Branch, deployment: nat, config: Config) returns (index: DemandIndex)
    ensures index.Accurate() && (refreshes > 0 ==> index.key == Some(deployment))
    ensures index.ready && ChangesLogged(index.hash.value) ==> index.entries == Full(index.hash.value)
  {
    var node := new Node(genesis, false, deployment);
    index := new DemandIndex();
    for i := 0 to refreshes
      invariant fresh(node) && fresh(index) && node.Valid() && index.Accurate()
      invariant index.key == if i == 0 then None else Some(deployment)
    {
      node.BeginScan();
      node.Await();
      ghost var rebuilt;
      var r;
      r, rebuilt := index.RefreshIndex(node, deployment, config);
    }
  }
}
