/** The frontend's board: demands sorted by funding, brought up to date from a cursor. Unlike the backend it looks at
    the cursor's block before it reads its target block, so it also needs the cursor to stay canonical that long. */
module MarketSync {
  import opened Wrappers
  import opened Chain
  import opened MarketIndex

  const RANGE := 100
  const MAX_RANGES := 10

  datatype View = View(id: nat, demand: Demand)

  datatype Cursor = Cursor(key: nat, number: nat, hash: Hash)

  datatype SyncResult = SyncResult(demands: seq<View>, cursor: Cursor, changed: bool, recovered: bool)

  datatype SyncError = DeploymentMismatch | SnapshotReorged | ReorgedDuringScan | RpcUnavailable

  // ---------------------------------------------------------------- the order of the board

  /** The comparison of the sort. */
  predicate Above(a: View, b: View) {
    a.demand.committed > b.demand.committed || (a.demand.committed == b.demand.committed && a.id > b.id)
  }

  predicate SortedViews(views: seq<View>) {
    forall i, j | 0 <= i < j < |views| :: Above(views[i], views[j])
  }

  /** Nothing stands after a demand with less funding, and equally funded demands stand by descending id. */
  ghost predicate ByFunding(views: seq<View>) {
    && (forall i, j | 0 <= i < j < |views| :: views[i].demand.committed >= views[j].demand.committed)
    && (forall i, j | 0 <= i < j < |views| && views[i].demand.committed == views[j].demand.committed ::
          views[i].id > views[j].id)
  }

  lemma SortedByFunding(views: seq<View>)
    requires SortedViews(views)
    ensures ByFunding(views)
  {
    forall i, j | 0 <= i < j < |views|
      ensures views[i].demand.committed >= views[j].demand.committed
      ensures views[i].demand.committed == views[j].demand.committed ==> views[i].id > views[j].id
    {
      assert Above(views[i], views[j]);
    }
  }

  /** The views are the table's demands, each once. */
  ghost predicate Shows(views: seq<View>, table: map<nat, Demand>) {
    && |views| == |table|
    && (forall v | v in views :: v.id in table && table[v.id] == v.demand)
    && (forall id | id in table :: View(id, table[id]) in views)
  }

  ghost predicate IsBoard(views: seq<View>, table: map<nat, Demand>) {
    SortedViews(views) && Shows(views, table)
  }

  ghost predicate BoardAt(views: seq<View>, h: Hash) {
    |h| > 0 && IsBoard(views, Full(h)) && ByFunding(views)
  }

  lemma OneKeyMore(table: map<nat, Demand>, id: nat, d: Demand)
    requires id !in table
    ensures |table[id := d]| == |table| + 1
  {
    var after := table[id := d];
    assert after.Keys == table.Keys + {id} && |after.Keys| == |after| && |table.Keys| == |table|;
  }

  lemma Without(views: seq<View>, table: map<nat, Demand>)
    requires IsBoard(views, table) && |views| > 0
    ensures IsBoard(views[1..], table - {views[0].id})
  {
    var v := views[0];
    var rest := table - {v.id};
    assert v in views;
    assert |rest| == |table| - 1 by {
      assert rest.Keys == table.Keys - {v.id} && |rest.Keys| == |rest| && |table.Keys| == |table|;
    }
    forall w | w in views[1..] ensures w.id in rest && rest[w.id] == w.demand {
      var i :| 0 <= i < |views[1..]| && views[1..][i] == w;
      assert Above(views[0], views[i + 1]);
      assert w in views;
    }
    forall id | id in rest ensures View(id, rest[id]) in views[1..] {
      var i :| 0 <= i < |views| && views[i] == View(id, table[id]);
      assert views[1..][i - 1] == views[i];
    }
    assert forall i | 0 <= i < |views[1..]| :: views[1..][i] == views[i + 1];
  }

  lemma TopIsAbove(views: seq<View>, v: View)
    requires SortedViews(views) && v in views
    ensures |views| > 0 && (v == views[0] || Above(views[0], v))
  {
    var i :| 0 <= i < |views| && views[i] == v;
    assert i > 0 ==> Above(views[0], views[i]);
  }

  lemma SameTop(a: seq<View>, b: seq<View>, table: map<nat, Demand>)
    requires IsBoard(a, table) && IsBoard(b, table) && |a| > 0
    ensures |b| == |a| && a[0] == b[0]
  {
    assert a[0] in a && b[0] in b;
    assert a[0] == View(a[0].id, table[a[0].id]) && b[0] == View(b[0].id, table[b[0].id]);
    TopIsAbove(b, a[0]);
    TopIsAbove(a, b[0]);
  }

  /** There is one board for a table: two full reads at the same block agree, order included. */
  lemma {:induction false} OneBoard(a: seq<View>, b: seq<View>, table: map<nat, Demand>)
    requires IsBoard(a, table) && IsBoard(b, table)
    ensures a == b
    decreases |a|
  {
    if |a| > 0 {
      SameTop(a, b, table);
      Without(a, table);
      Without(b, table);
      OneBoard(a[1..], b[1..], table - {a[0].id});
      SameRest(a, b);
    }
  }

  lemma SameRest(a: seq<View>, b: seq<View>)
    requires |a| > 0 && |b| > 0 && a[0] == b[0] && a[1..] == b[1..]
    ensures a == b
  {
    assert a == [a[0]] + a[1..] && b == [b[0]] + b[1..];
  }

  method PlaceView(views: seq<View>, v: View) returns (placed: seq<View>, ghost p: nat)
    requires SortedViews(views) && forall w | w in views :: w.id != v.id
    ensures SortedViews(placed) && p <= |views| && placed == views[..p] + [v] + views[p..]
  {
    var at := 0;
    while at < |views| && Above(views[at], v)
      invariant 0 <= at <= |views| && forall i | 0 <= i < at :: Above(views[i], v)
    {
      at := at + 1;
    }
    placed, p := views[..at] + [v] + views[at..], at;
    forall i | at <= i < |views| ensures Above(v, views[i]) {
      assert views[at] in views;
      assert i == at || Above(views[at], views[i]);
    }
  }

  lemma Placed(views: seq<View>, table: map<nat, Demand>, v: View, p: nat)
    requires Shows(views, table) && v.id !in table && p <= |views|
    ensures Shows(views[..p] + [v] + views[p..], table[v.id := v.demand])
  {
    var placed := views[..p] + [v] + views[p..];
    var after := table[v.id := v.demand];
    OneKeyMore(table, v.id, v.demand);
    forall w | w in placed ensures w.id in after && after[w.id] == w.demand {
      assert w == v || w in views;
    }
    forall id | id in after ensures View(id, after[id]) in placed {
      if id == v.id {
        assert placed[p] == v;
      } else {
        var i :| 0 <= i < |views| && views[i] == View(id, table[id]);
        assert placed[if i < p then i else i + 1] == views[i];
      }
    }
  }

  method PlaceInto(views: seq<View>, ghost table: map<nat, Demand>, v: View) returns (placed: seq<View>)
    requires IsBoard(views, table) && v.id !in table
    ensures IsBoard(placed, table[v.id := v.demand])
  {
    ghost var p;
    placed, p := PlaceView(views, v);
    Placed(views, table, v, p);
  }

  lemma OneLess(table: map<nat, Demand>, left: set<nat>, id: nat)
    requires left <= table.Keys && id in left
    ensures table - (left - {id}) == (table - left)[id := table[id]]
  {
  }

  method SortDemandsByFunding(table: map<nat, Demand>) returns (views: seq<View>)
    ensures IsBoard(views, table) && ByFunding(views)
  {
    views := [];
    var left := table.Keys;
    assert table - left == map[];
    while left != {}
      invariant left <= table.Keys && IsBoard(views, table - left)
      decreases left
    {
      var id :| id in left;
      OneLess(table, left, id);
      views := PlaceInto(views, table - left, View(id, table[id]));
      left := left - {id};
    }
    assert table - left == table;
    SortedByFunding(views);
  }

  // ---------------------------------------------------------------- what the logs promise

  /** Every new demand is announced in the block that creates it. */
  ghost predicate CreationsLogged(h: Hash) {
    forall n, id: nat | 0 < n < |h| && |h[n - 1].demands| < id <= |h[n].demands| :: Announces(h, n, id)
  }

  lemma {:induction false} NewAnnounced(h: Hash, m: nat, n: nat, id: nat) returns (k: nat)
    requires CreationsLogged(h) && m <= n < |h| && |h[m].demands| < id <= |h[n].demands|
    ensures m < k <= n && Announces(h, k, id)
    decreases n
  {
    if id <= |h[n - 1].demands| {
      k := NewAnnounced(h, m, n - 1, id);
    } else {
      k := n;
    }
  }

  ghost predicate Logged(h: Hash) {
    ChangesLogged(h) && CreationsLogged(h)
  }

  lemma CaughtUp(board: map<nat, Demand>, updates: map<nat, Demand>, h: Hash, h': Hash)
    requires |h| > 0 && h <= h' && Logged(h')
    requires board == Full(h) && Covers(updates.Keys, h', |h|) && Answered(updates, h')
    ensures board + updates == Full(h')
  {
    forall id: nat | 1 <= id <= DemandCount(h') ensures id in board || id in updates {
      if id > DemandCount(h) {
        var k := NewAnnounced(h', |h| - 1, |h'| - 1, id);
        assert id in updates.Keys;
      }
    }
    UpdatedIsFull(board, updates, h, h');
  }

  // ---------------------------------------------------------------- a chain on which no synchronization can fail

  predicate KnownThen(l: Log, b: Block) {
    l.demandId.Some? ==> 1 <= l.demandId.value <= |b.demands|
  }

  /** Every log that names a demand names one that exists by then, and stored demands change only with a log. */
  ghost predicate Orderly(c: Branch) {
    ChangesLogged(c) && forall n, l | 0 <= n < |c| && l in c[n].logs :: KnownThen(l, c[n])
  }

  lemma NamedByThen(c: Branch, start: nat, end: nat, upTo: nat, ids: set<nat>)
    requires Orderly(c) && end <= upTo < |c|
    requires forall id: nat :: id in ids <==> NamesId(LogsBetween(c, start, end), id)
    ensures ids <= Ids(|c[upTo].demands|)
  {
    LogsAreLogs(c, start, end + 1);
    var raws := LogsBetween(c, start, end);
    forall id | id in ids ensures id in Ids(|c[upTo].demands|) {
      var i :| 0 <= i < |raws| && raws[i].demandId == Some(id);
      assert FromBlocks(raws[i], c, start, end + 1);
      var n: nat, k: nat :| start <= n < end + 1 && IsLog(raws[i], c, n, k);
      assert KnownThen(c[n].logs[k], c[n]);
      NoneLost(c, n, upTo);
    }
  }

  // ---------------------------------------------------------------- remote reads

  method ReadViews(node: Node, ids: set<nat>, n: nat, ghost h: Hash) returns (r: Result<map<nat, Demand>, SyncError>)
    requires node.Valid() && |h| == n + 1
    modifies node`branch, node`history
    ensures node.Valid() && old(node.history) <= node.history
    ensures r.Ok? ==> r.value.Keys == ids
    ensures r.Ok? && StaysOn(node.history, old(|node.history|), h) ==> Answered(r.value, h)
    ensures r.Err? ==> r.error == RpcUnavailable
    ensures node.calm ==> node.branch == old(node.branch)
    ensures node.calm && n < |node.branch| && ids <= Ids(|node.branch[n].demands|) ==> r.Ok?
  {
    var left := ids;
    var entries: map<nat, Demand> := map[];
    ghost var since := |node.history|;
    while left != {}
      invariant node.Valid() && old(node.history) <= node.history
      invariant entries.Keys == ids - left && left <= ids && (node.calm ==> node.branch == old(node.branch))
      invariant StaysOn(node.history, since, h) ==> Answered(entries, h)
      decreases left
    {
      var id :| id in left;
      ghost var before := node.history;
      var data := node.ReadDemand(id, n);
      ghost var seen := node.history;
      var progress := node.ReadDemand(id, n);
      if data.Err? || progress.Err? { return Err(RpcUnavailable); }
      if StaysOn(node.history, since, h) {
        StaysOnBefore(before, node.history, since, since, h);
        assert node.history[|seen| - 1] == seen[|seen| - 1];
      }
      entries := entries[id := Demand(data.value.committed, progress.value.details)];
      left := left - {id};
    }
    r := Ok(entries);
  }

  /** Every demand at block n. */
  method ReadTableAt(node: Node, n: nat, ghost h: Hash) returns (r: Result<map<nat, Demand>, SyncError>)
    requires node.Valid() && |h| == n + 1
    modifies node`branch, node`history
    ensures node.Valid() && old(node.history) <= node.history
    ensures r.Ok? && StaysOn(node.history, old(|node.history|), h) ==> r.value == Full(h)
    ensures r.Err? ==> r.error == RpcUnavailable
    ensures node.calm ==> node.branch == old(node.branch) && (n < |node.branch| ==> r.Ok?)
  {
    ghost var since := |node.history|;
    var next := node.ReadNextDemandId(n);
    if next.Err? { return Err(RpcUnavailable); }
    ghost var seen := node.history;
    r := ReadViews(node, Ids(next.value - 1), n, h);
    if r.Ok? && StaysOn(node.history, since, h) {
      assert seen[|seen| - 1] == node.history[|seen| - 1];
      StaysOnBefore(node.history, node.history, since, |seen|, h);
      AnsweredAll(r.value, h);
    }
  }

  method ReadBoardAt(node: Node, n: nat, ghost h: Hash) returns (r: Result<seq<View>, SyncError>)
    requires node.Valid() && |h| == n + 1
    modifies node`branch, node`history
    ensures node.Valid() && old(node.history) <= node.history
    ensures r.Ok? && StaysOn(node.history, old(|node.history|), h) ==> BoardAt(r.value, h)
    ensures r.Ok? ==> ByFunding(r.value)
    ensures r.Err? ==> r.error == RpcUnavailable
    ensures node.calm ==> node.branch == old(node.branch) && (n < |node.branch| ==> r.Ok?)
  {
    var table :- ReadTableAt(node, n, h);
    var views := SortDemandsByFunding(table);
    r := Ok(views);
  }

  /** A full read at the head, kept only if the head is still the same afterwards. */
  method ReadBoardSnapshot(node: Node, key: nat) returns (r: Result<SyncResult, SyncError>)
    requires node.Valid()
    modifies node
    ensures node.Valid() && old(node.history) <= node.history
    ensures node.calm ==> node.branch == old(node.branch) && r.Ok?
    ensures r.Ok? ==> && r.value.recovered && r.value.changed && r.value.cursor.key == key
                      && |r.value.cursor.hash| == r.value.cursor.number + 1
                      && r.value.cursor.hash <= node.branch && BoardAt(r.value.demands, r.value.cursor.hash)
  {
    node.BeginScan();
    var block := node.GetHead();
    if block.Err? { return Err(RpcUnavailable); }
    ghost var headAt := |node.history| - 1;
    var demands :- ReadBoardAt(node, block.value.number, block.value.hash);
    ghost var seen := node.history;
    var canonical := node.GetBlock(block.value.number);
    if canonical.Err? { return Err(RpcUnavailable); }
    if canonical.value.hash != block.value.hash { return Err(SnapshotReorged); }
    ClosedScan(seen, node.branch, node.mark, headAt, block.value.hash);
    StaysOnBefore(seen, seen, headAt, headAt + 1, block.value.hash);
    r := Ok(SyncResult(demands, Cursor(key, block.value.number, block.value.hash), true, true));
  }

  /** The ids that the logs of one range name. */
  method IdsOfRange(node: Node, start: nat, end: nat, ghost h: Hash) returns (r: Result<set<nat>, SyncError>)
    requires node.Valid() && start <= end && end - start < RANGE
    modifies node`branch, node`history, node`answers
    ensures node.Valid() && node.history == old(node.history) + [node.branch] && old(node.answers) <= node.answers
    ensures r.Ok? && h <= node.branch ==> CoversRange(r.value, h, start, end)
    ensures r.Ok? ==> OnlyNamed(r.value, node.answers, |old(node.answers)|)
    ensures r.Ok? && node.calm ==> OnlyAnnounced(r.value, node.branch, start, end)
    ensures r.Err? ==> r.error == RpcUnavailable
    ensures node.calm ==> node.branch == old(node.branch) && r.Ok?
    ensures node.calm ==> forall id: nat :: id in r.value <==> NamesId(LogsBetween(node.branch, start, end), id)
  {
    var logs := node.GetLogs(start, end);
    if logs.Err? { return Err(RpcUnavailable); }
    var ids := NamedIds(logs.value);
    forall id | id in ids ensures NamedSince(node.answers, |old(node.answers)|, id) {
      StillNamed(old(node.answers), logs.value, |old(node.answers)|, id);
    }
    if node.calm { NamedAreAnnounced(node.branch, start, end, ids); }
    if h <= node.branch { AnswerCovers(logs.value, ids, node.branch, h, start, end); }
    r := Ok(ids);
  }

  method ChangedIds(node: Node, from: nat, upTo: nat, ghost h: Hash) returns (r: Result<set<nat>, SyncError>)
    requires node.Valid()
    modifies node`branch, node`history, node`answers
    ensures node.Valid() && old(node.history) <= node.history
    ensures r.Ok? && StaysOn(node.history, old(|node.history|), h) ==> CoversRange(r.value, h, from, upTo)
    ensures old(node.answers) <= node.answers
    ensures r.Ok? ==> OnlyNamed(r.value, node.answers, |old(node.answers)|)
    ensures r.Ok? && node.calm ==> OnlyAnnounced(r.value, node.branch, from, upTo)
    ensures r.Err? ==> r.error == RpcUnavailable
    ensures node.calm ==> node.branch == old(node.branch)
    ensures node.calm && Orderly(node.branch) && upTo < |node.branch| ==>
              r.Ok? && r.value <= Ids(|node.branch[upTo].demands|)
  {
    var ids: set<nat> := {};
    var start := from;
    ghost var since := |node.history|;
    while start <= upTo
      invariant node.Valid() && old(node.history) <= node.history && from <= start
      invariant StaysOn(node.history, since, h) && start > 0 ==> CoversRange(ids, h, from, start - 1)
      invariant node.calm ==> node.branch == old(node.branch) && OnlyAnnounced(ids, node.branch, from, upTo)
      invariant old(node.answers) <= node.answers && OnlyNamed(ids, node.answers, |old(node.answers)|)
      invariant node.calm && Orderly(node.branch) && upTo < |node.branch| ==> ids <= Ids(|node.branch[upTo].demands|)
      decreases upTo + 1 - start
    {
      var end := if start + RANGE - 1 < upTo then start + RANGE - 1 else upTo;
      ghost var before, known := node.history, node.answers;
      var more :- IdsOfRange(node, start, end, h);
      if node.calm && Orderly(node.branch) && upTo < |node.branch| { NamedByThen(node.branch, start, end, upTo, more); }
      if StaysOn(node.history, since, h) { StaysOnBefore(before, node.history, since, since, h); }
      StillOnlyNamed(ids, more, known, node.answers, |old(node.answers)|);
      if node.calm { StillAnnounced(ids, more, node.branch, start, end, from, upTo); }
      ids := ids + more;
      start := end + 1;
    }
    r := Ok(ids);
  }

  // ---------------------------------------------------------------- synchronization

  /** The demands of the blocks after the cursor up to the target, read at the target. */
  method ReadUpdates(node: Node, from: nat, target: Header) returns (r: Result<map<nat, Demand>, SyncError>)
    requires node.Valid() && |target.hash| == target.number + 1
    modifies node`branch, node`history, node`answers
    ensures node.Valid() && old(node.history) <= node.history
    ensures r.Ok? && StaysOn(node.history, old(|node.history|), target.hash) ==>
              Covers(r.value.Keys, target.hash, from) && Answered(r.value, target.hash)
    ensures old(node.answers) <= node.answers
    ensures r.Ok? ==> OnlyNamed(r.value.Keys, node.answers, |old(node.answers)|)
    ensures r.Ok? && node.calm ==> OnlyAnnounced(r.value.Keys, node.branch, from, target.number)
    ensures r.Err? ==> r.error == RpcUnavailable
    ensures node.calm ==> node.branch == old(node.branch) &&
                          (Orderly(node.branch) && target.number < |node.branch| ==> r.Ok?)
  {
    ghost var since := |node.history|;
    var ids :- ChangedIds(node, from, target.number, target.hash);
    ghost var seen := node.history;
    var updates :- ReadViews(node, ids, target.number, target.hash);
    if StaysOn(node.history, since, target.hash) {
      StaysOnBefore(seen, node.history, since, since, target.hash);
      StaysOnBefore(node.history, node.history, since, |seen|, target.hash);
    }
    r := Ok(updates);
  }

  /** `updates` is what the logs between cursor and target asked for, as it stands at the target. */
  ghost predicate ReadAtTarget(updates: map<nat, Demand>, cursor: Cursor, target: Header) {
    && |target.hash| == target.number + 1
    && Covers(updates.Keys, target.hash, cursor.number + 1) && Answered(updates, target.hash)
  }

  /** The target, and what the logs up to it change; the target is still canonical afterwards. */
  method ReadTarget(node: Node, cursor: Cursor, lastBlock: nat)
    returns (r: Result<(Header, map<nat, Demand>), SyncError>)
    requires node.Valid()
    modifies node`branch, node`history, node`answers
    ensures node.Valid() && old(node.history) <= node.history && (r.Ok? ==> |node.history| > old(|node.history|))
    ensures r.Ok? ==> && r.value.0.number == lastBlock && ReadAtTarget(r.value.1, cursor, r.value.0)
                      && r.value.0.hash <= node.history[old(|node.history|)] && r.value.0.hash <= node.branch
    ensures old(node.answers) <= node.answers
    ensures r.Ok? ==> OnlyNamed(r.value.1.Keys, node.answers, |old(node.answers)|)
    ensures r.Ok? && node.calm ==> OnlyAnnounced(r.value.1.Keys, node.branch, cursor.number + 1, lastBlock)
    ensures node.calm ==>
              node.branch == old(node.branch) && (Orderly(node.branch) && lastBlock < |node.branch| ==> r.Ok?)
  {
    var target := node.GetBlock(lastBlock);
    if target.Err? { return Err(RpcUnavailable); }
    ghost var at, before := |node.history| - 1, node.history;
    var updates :- ReadUpdates(node, cursor.number + 1, target.value);
    ghost var seen := node.history;
    var canonical := node.GetBlock(lastBlock);
    if canonical.Err? { return Err(RpcUnavailable); }
    if canonical.value.hash != target.value.hash { return Err(ReorgedDuringScan); }
    assert seen[at] == before[at] == node.history[at];
    ClosedScan(seen, node.branch, node.mark, at, target.value.hash);
    StaysOnBefore(seen, seen, at, at + 1, target.value.hash);
    r := Ok((target.value, updates));
  }

  function TableOf(board: seq<View>): map<nat, Demand> {
    if board == [] then map[] else TableOf(board[..|board| - 1])[board[|board| - 1].id := board[|board| - 1].demand]
  }

  lemma {:induction false} TableOfHas(board: seq<View>)
    requires forall i, j | 0 <= i < j < |board| :: board[i].id != board[j].id
    ensures forall i | 0 <= i < |board| ::
              board[i].id in TableOf(board) && TableOf(board)[board[i].id] == board[i].demand
    ensures forall id | id in TableOf(board) :: View(id, TableOf(board)[id]) in board
  {
    if board != [] {
      var init := board[..|board| - 1];
      TableOfHas(init);
      assert forall i | 0 <= i < |init| :: init[i] == board[i];
      forall id | id in TableOf(board) ensures View(id, TableOf(board)[id]) in board {
        if id != board[|board| - 1].id {
          var i :| 0 <= i < |init| && init[i] == View(id, TableOf(init)[id]);
          assert board[i] == init[i];
        }
      }
    }
  }

  /** A board determines its table. */
  lemma TableOfBoard(board: seq<View>, table: map<nat, Demand>)
    requires IsBoard(board, table)
    ensures TableOf(board) == table
  {
    forall i, j | 0 <= i < j < |board| ensures board[i].id != board[j].id {
      assert Above(board[i], board[j]) && board[i] in board && board[j] in board;
    }
    TableOfHas(board);
    forall id | id in table ensures id in TableOf(board) && TableOf(board)[id] == table[id] {
      var i :| 0 <= i < |board| && board[i] == View(id, table[id]);
    }
    forall id | id in TableOf(board) ensures id in table {
      assert View(id, TableOf(board)[id]) in board;
    }
  }

  /** The new board: the old one if nothing was named, else the merge, sorted again. */
  method Merge(board: seq<View>, cursor: Cursor, target: Header, updates: map<nat, Demand>) returns (r: SyncResult)
    requires ReadAtTarget(updates, cursor, target) && |cursor.hash| == cursor.number + 1
    ensures r.cursor == Cursor(cursor.key, target.number, target.hash) && !r.recovered && (r.changed <==> |updates| > 0)
    ensures if r.changed then ByFunding(r.demands) else r.demands == board
    ensures cursor.hash <= target.hash && BoardAt(board, cursor.hash) && Logged(target.hash) ==>
              BoardAt(r.demands, target.hash)
  {
    var next := Cursor(cursor.key, target.number, target.hash);
    if cursor.hash <= target.hash && BoardAt(board, cursor.hash) && Logged(target.hash) {
      TableOfBoard(board, Full(cursor.hash));
      CaughtUp(TableOf(board), updates, cursor.hash, target.hash);
    }
    if |updates| == 0 {
      assert TableOf(board) + updates == TableOf(board);
      return SyncResult(board, next, false, false);
    }
    var views := SortDemandsByFunding(TableOf(board) + updates);
    r := SyncResult(views, next, true, false);
  }

  /** What the caller gets: a board for the new cursor, provided the old cursor is on the new cursor's chain. */
  ghost predicate Synchronized(r: SyncResult, board: seq<View>, cursor: Cursor) {
    && |r.cursor.hash| == r.cursor.number + 1
    && (r.recovered ==> BoardAt(r.demands, r.cursor.hash))
    && (!r.recovered && cursor.hash <= r.cursor.hash && BoardAt(board, cursor.hash) && Logged(r.cursor.hash) ==>
          BoardAt(r.demands, r.cursor.hash))
    && (!r.recovered ==> cursor.number <= r.cursor.number <= cursor.number + RANGE * MAX_RANGES)
  }

  /** How far one call goes when the head is at `head`. */
  function SyncEnd(cursor: nat, head: nat): nat {
    if head < cursor + RANGE * MAX_RANGES then head else cursor + RANGE * MAX_RANGES
  }

  ghost predicate SomeNamed(answers: seq<RawLog>, k: nat) {
    exists id :: NamedSince(answers, k, id)
  }

  ghost predicate SomeAnnounced(c: Branch, from: nat, upTo: nat) {
    exists id :: AnnouncedIn(c, from, upTo, id)
  }

  lemma ChangedWhenNamed(ids: set<nat>, answers: seq<RawLog>, k: nat, c: Branch, h: Hash, from: nat)
    requires OnlyNamed(ids, answers, k) && |h| > 0 && h <= c && Covers(ids, h, from)
    ensures ids != {} ==> SomeNamed(answers, k)
    ensures OnlyAnnounced(ids, c, from, |h| - 1) ==> (ids != {} <==> SomeAnnounced(c, from, |h| - 1))
  {
    if ids != {} {
      var id :| id in ids;
      assert NamedSince(answers, k, id);
      if OnlyAnnounced(ids, c, from, |h| - 1) { assert AnnouncedIn(c, from, |h| - 1, id); }
    }
    var upTo := |h| - 1;
    if id: nat :| AnnouncedIn(c, from, upTo, id) {
      var n: nat :| from <= n <= upTo && Announces(c, n, id);
      assert h[n] == c[n] && Announces(h, n, id);
    }
  }

  /** The part after the cursor's block has been found unchanged. */
  method ScanFromCursor(node: Node, board: seq<View>, cursor: Cursor, head: nat)
    returns (r: Result<SyncResult, SyncError>)
    requires node.Valid() && |cursor.hash| == cursor.number + 1 && cursor.number < head
    modifies node`branch, node`history, node`answers
    ensures node.Valid() && old(node.history) <= node.history
    ensures r.Ok? ==> && Synchronized(r.value, board, cursor) && !r.value.recovered && r.value.cursor.key == cursor.key
                      && r.value.cursor.hash <= node.branch
                      && r.value.cursor.number == SyncEnd(cursor.number, head)
                      && (r.value.changed ==> ByFunding(r.value.demands))
                      && (!r.value.changed ==> r.value.demands == board)
    ensures r.Ok? && StaysOn(node.history, old(|node.history|), cursor.hash) ==> cursor.hash <= r.value.cursor.hash
    ensures r.Ok? && r.value.changed ==> SomeNamed(node.answers, |old(node.answers)|)
    ensures r.Ok? && node.calm ==>
              (r.value.changed <==> SomeAnnounced(node.branch, cursor.number + 1, r.value.cursor.number))
    ensures node.calm ==> node.branch == old(node.branch) && (Orderly(node.branch) && head < |node.branch| ==> r.Ok?)
  {
    var lastBlock := SyncEnd(cursor.number, head);
    var scan :- ReadTarget(node, cursor, lastBlock);
    var merged := Merge(board, cursor, scan.0, scan.1);
    ChangedWhenNamed(scan.1.Keys, node.answers, |old(node.answers)|, node.branch, scan.0.hash, cursor.number + 1);
    r := Ok(merged);
  }

  /** At some instant of the call the block was canonical. */
  ghost predicate WasOn(history: seq<Branch>, since: nat, h: Hash) {
    exists at :: since <= at < |history| && h <= history[at]
  }

  ghost predicate WasOff(history: seq<Branch>, since: nat, h: Hash) {
    exists at :: since <= at < |history| && !(h <= history[at])
  }

  /** The part after the head has been read: the cursor's block must still be there. */
  method SynchronizeUpTo(node: Node, board: seq<View>, cursor: Cursor, head: nat)
    returns (r: Result<SyncResult, SyncError>)
    requires node.Valid() && |cursor.hash| == cursor.number + 1 && cursor.number <= head
    modifies node
    ensures node.Valid() && old(node.history) <= node.history
    ensures r.Ok? ==> && Synchronized(r.value, board, cursor) && r.value.cursor.hash <= node.branch
                      && r.value.cursor.key == cursor.key
    ensures r.Ok? ==> if r.value.changed then ByFunding(r.value.demands) else r.value.demands == board
    ensures r.Ok? && !r.value.recovered ==> r.value.cursor.number == SyncEnd(cursor.number, head)
    ensures r.Ok? ==> if r.value.recovered then WasOff(node.history, |old(node.history)|, cursor.hash)
                      else WasOn(node.history, |old(node.history)|, cursor.hash)
    ensures r.Ok? && !r.value.recovered && r.value.changed ==> SomeNamed(node.answers, |old(node.answers)|)
    ensures r.Ok? && node.calm ==> (r.value.recovered <==> !(cursor.hash <= node.branch))
    ensures r.Ok? && node.calm && !r.value.recovered ==>
              (r.value.changed <==> SomeAnnounced(node.branch, cursor.number + 1, r.value.cursor.number))
    ensures node.calm ==> node.branch == old(node.branch) && (Orderly(node.branch) && head < |node.branch| ==> r.Ok?)
    ensures r.Ok? && StaysOn(node.history, old(|node.history|), cursor.hash) && !r.value.recovered ==>
              cursor.hash <= r.value.cursor.hash
  {
    var checkpoint := node.GetBlock(cursor.number);
    if checkpoint.Err? { return Err(RpcUnavailable); }
    ghost var seen := node.history;
    PrefixIs(cursor.hash, node.branch);
    if checkpoint.value.hash != cursor.hash {
      r := ReadBoardSnapshot(node, cursor.key);
      assert node.history[|seen| - 1] == seen[|seen| - 1];
      return;
    }
    if head == cursor.number { return Ok(SyncResult(board, cursor, false, false)); }
    r := ScanFromCursor(node, board, cursor, head);
    assert node.history[|seen| - 1] == seen[|seen| - 1];
    if StaysOn(node.history, old(|node.history|), cursor.hash) {
      StaysOnBefore(node.history, node.history, old(|node.history|), |seen|, cursor.hash);
    }
  }

  /** If the cursor's block stays canonical for the length of the call, the result is the full board of the new
      cursor, order included; a fresh full board comes exactly if it was found gone. */
  method SynchronizeMarketBoard(node: Node, key: nat, board: seq<View>, cursor: Cursor)
    returns (r: Result<SyncResult, SyncError>)
    requires node.Valid() && |cursor.hash| == cursor.number + 1
    modifies node
    ensures node.Valid() && old(node.history) <= node.history
    ensures cursor.key != key ==> r == Err(DeploymentMismatch)
    ensures r.Ok? ==>
              Synchronized(r.value, board, cursor) && r.value.cursor.hash <= node.branch && r.value.cursor.key == key
    ensures r.Ok? ==> if r.value.changed then ByFunding(r.value.demands) else r.value.demands == board
    ensures r.Ok? && !r.value.recovered ==>
              && |node.history| > old(|node.history|)
              && r.value.cursor.number == SyncEnd(cursor.number, |node.history[old(|node.history|)]| - 1)
    ensures r.Ok? ==> if r.value.recovered then WasOff(node.history, |old(node.history)|, cursor.hash)
                      else WasOn(node.history, |old(node.history)|, cursor.hash)
    ensures r.Ok? && !r.value.recovered && r.value.changed ==> SomeNamed(node.answers, |old(node.answers)|)
    ensures r.Ok? && node.calm ==> (r.value.recovered <==> !(cursor.hash <= node.branch))
    ensures r.Ok? && node.calm && !r.value.recovered ==>
              (r.value.changed <==> SomeAnnounced(node.branch, cursor.number + 1, r.value.cursor.number))
    ensures node.calm ==> node.branch == old(node.branch)
    ensures node.calm && Orderly(node.branch) && cursor.key == key ==> r.Ok?
    ensures r.Ok? && StaysOn(node.history, old(|node.history|), cursor.hash) ==>
              && !r.value.recovered && cursor.hash <= r.value.cursor.hash
              && (BoardAt(board, cursor.hash) && Logged(r.value.cursor.hash) ==>
                  BoardAt(r.value.demands, r.value.cursor.hash))
  {
    if cursor.key != key { return Err(DeploymentMismatch); }
    node.BeginScan();
    var head := node.GetHead();
    if head.Err? { return Err(RpcUnavailable); }
    ghost var first := node.history;
    if head.value.number < cursor.number {
      r := ReadBoardSnapshot(node, key);
      assert node.history[|first| - 1] == first[|first| - 1];
      return;
    }
    r := SynchronizeUpTo(node, board, cursor, head.value.number);
    assert node.history[|first| - 1] == first[|first| - 1];
    if StaysOn(node.history, old(|node.history|), cursor.hash) {
      StaysOnBefore(node.history, node.history, old(|node.history|), |first|, cursor.hash);
    }
  }

  // ---------------------------------------------------------------- why the premise is needed

  lemma OneSwitch(a: Branch, b: Branch)
    ensures NoReinstatement([a, a, b, b, b], 0)
  {
    var history := [a, a, b, b, b];
    forall i, j, k, n | 0 <= i < |history| && i <= j < |history| && j <= k < |history| && 0 <= n <= |history[i]|
      ensures StayedOn(history, i, j, k, n)
    {
      assert history[j] == history[i] || history[j] == history[k];
    }
  }

  lemma TwoBlocks(c: Branch, tx: nat, d: Demand)
    requires c == [GENESIS, Block(1, [], [Log(tx, 0, 0, true, "", Some(1), "")], [d]), Block(2, [], [], [d])]
    ensures Logged(c) && Full(c[..2]) == map[1 := d] == Full(c)
  {
    assert c[1].logs[0].demandId == Some(1);
    assert Announces(c, 1, 1);
    forall n | 0 < n < |c| ensures BlockLogged(c, n) {
      forall id | 1 <= id <= |c[n - 1].demands| ensures SameOrAnnounced(c, n, id) {}
    }
  }

  /** The chain leaves the cursor's block after it was checked and before the target is read. Every answer is honest,
      no block is reinstated, the target is canonical to the end, and no log falls in the scanned range; yet the
      old board, kept under the new cursor, is not the board of the new cursor's chain. */
  lemma SwitchGoesUnseen(a: Branch, b: Branch, d: Demand, e: Demand)
    requires d.committed != e.committed
    requires a == [GENESIS, Block(1, [], [Log(1, 0, 0, true, "", Some(1), "")], [d]), Block(2, [], [], [d])]
    requires b == [GENESIS, Block(1, [], [Log(2, 0, 0, true, "", Some(1), "")], [e]), Block(2, [], [], [e])]
    ensures NoReinstatement([a, a, b, b, b], 0) && Honest([], b, 2, 2) && Logged(b)
    ensures BoardAt([View(1, d)], a[..2]) && !BoardAt([View(1, d)], b)
  {
    OneSwitch(a, b);
    TwoBlocks(a, 1, d);
    TwoBlocks(b, 2, e);
    assert View(1, d) in [View(1, d)];
  }

  /** The same run, step by step: head and checkpoint answered from a, target, logs and second target from b. No
      demand is named, none is read, and the merge returns the old board under a cursor of b. */
  method SwitchRun(a: Branch, b: Branch, d: Demand, e: Demand, key: nat) returns (r: SyncResult)
    requires d.committed != e.committed
    requires a == [GENESIS, Block(1, [], [Log(1, 0, 0, true, "", Some(1), "")], [d]), Block(2, [], [], [d])]
    requires b == [GENESIS, Block(1, [], [Log(2, 0, 0, true, "", Some(1), "")], [e]), Block(2, [], [], [e])]
    ensures r == SyncResult([View(1, d)], Cursor(key, 2, b), false, false)
    ensures BoardAt([View(1, d)], a[..2]) && Logged(b) && !BoardAt(r.demands, r.cursor.hash)
  {
    SwitchGoesUnseen(a, b, d, e);
    var cursor := Cursor(key, 1, a[..2]);
    var head := HeaderAt(a, |a| - 1);
    var checkpoint := HeaderAt(a, cursor.number);
    assert checkpoint.hash == cursor.hash && cursor.number < head.number;
    var target := HeaderAt(b, SyncEnd(cursor.number, head.number));
    assert target.hash == b;
    var ids := NamedIds([]);
    assert ids == {};
    var updates: map<nat, Demand> := map[];
    assert updates.Keys == ids && ReadAtTarget(updates, cursor, target);
    r := Merge([View(1, d)], cursor, target, updates);
  }
}
