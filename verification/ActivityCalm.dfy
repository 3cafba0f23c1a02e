/** A chain on which the indexer cannot fail: what the progress theorem assumes of it, and why one page then commits. */
module ActivityCalm {
  import opened Wrappers
  import opened Arithmetic
  import opened Sets
  import opened Chain
  import opened ActivityStore
  import opened ActivityCoverage

  const MAX_SAFE := 0x1F_FFFF_FFFF_FFFF

  datatype Limits = Limits(maxWindows: nat, maxDemands: nat)

  /** Nothing the indexer checks is wrong with log l of block n. */
  ghost predicate GoodLog(c: Branch, n: nat, l: Log) {
    && LogAt(c, n, l) && l.strict && |l.payload| <= MAX_PAYLOAD
    && l.txIndex < |c[n].txs| && c[n].txs[l.txIndex] == l.txHash
    && l.txIndex <= MAX_SAFE && l.logIndex <= MAX_SAFE
    && ValidEvent(ActivityCoverage.RowOf(c[..n + 1], l))
  }

  ghost predicate GoodRaw(c: Branch, raw: RawLog, start: nat, end: nat) {
    exists n, l :: start <= n <= end && GoodLog(c, n, l) && raw == Chain.RawOf(c[..n + 1], l)
  }

  ghost predicate AllGood(c: Branch, logs: seq<RawLog>, start: nat, end: nat) {
    forall i | 0 <= i < |logs| :: GoodRaw(c, logs[i], start, end)
  }

  /** Nothing in the range start..end of c stops the indexer. */
  ghost predicate CleanRange(c: Branch, start: nat, end: nat, limits: Limits) {
    && end < |c| && |LogsBetween(c, start, end)| <= limits.maxDemands * 10
    && AllGood(c, LogsBetween(c, start, end), start, end)
  }

  function BlockCount(c: Branch, n: nat): nat {
    if n < |c| then |c[n].logs| else 0
  }

  /** How many logs the blocks from..until - 1 have. */
  function LogCount(c: Branch, from: nat, until: nat): nat {
    if until <= from then 0 else LogCount(c, from, until - 1) + BlockCount(c, until - 1)
  }

  /** Log i of block n and log j of block m share their key only if they are the same log. */
  predicate OwnKey(c: Branch, n: nat, i: nat, m: nat, j: nat)
    requires n < |c| && m < |c| && i < |c[n].logs| && j < |c[m].logs|
  {
    c[n].logs[i].txHash == c[m].logs[j].txHash && c[n].logs[i].logIndex == c[m].logs[j].logIndex ==> n == m && i == j
  }

  predicate DistinctLogs(c: Branch) {
    forall n, i, m, j | 0 <= n < |c| && 0 <= i < |c[n].logs| && 0 <= m < |c| &&
      0 <= j < |c[m].logs| :: OwnKey(c, n, i, m, j)
  }

  predicate AnswerFits(c: Branch, start: nat, end: nat, limits: Limits) {
    LogCount(c, start, end + 1) <= limits.maxDemands * 10
  }

  predicate TotalFits(c: Branch, deploy: nat, end: nat, maxEvents: nat) {
    LogCount(c, deploy, end + 1) <= maxEvents
  }

  predicate TimeFits(b: Block) {
    b.timestamp < TWO64
  }

  /** Well-formed logs, and room for them. */
  ghost predicate CalmChain(c: Branch, deploy: nat, limits: Limits, maxEvents: nat) {
    && |c| < TWO64 && (forall n | 0 <= n < |c| :: TimeFits(c[n]))
    && (forall n, l | deploy <= n && LogAt(c, n, l) :: GoodLog(c, n, l))
    && DistinctLogs(c)
    && (forall end | deploy <= end < |c| :: TotalFits(c, deploy, end, maxEvents))
    && (forall start, end | deploy <= start <= end < |c| && end - start < PAGE :: AnswerFits(c, start, end, limits))
  }

  predicate SameKey(a: RawLog, b: RawLog) {
    a.txHash == b.txHash && a.logIndex == b.logIndex
  }

  lemma DifferentBlocks(a: RawLog, b: RawLog, c: Branch, n: nat, i: nat, m: nat, j: nat)
    requires DistinctLogs(c) && IsLog(a, c, n, i) && IsLog(b, c, m, j) && (n != m || i != j)
    ensures !SameKey(a, b)
  {
    assert OwnKey(c, n, i, m, j);
  }

  /** No two logs of the answer share a key. */
  ghost predicate KeysDiffer(raws: seq<RawLog>) {
    forall p, q | 0 <= p < q < |raws| :: !SameKey(raws[p], raws[q])
  }

  lemma KeysDifferLonger(raws: seq<RawLog>, c: Branch, from: nat, upTo: nat)
    requires DistinctLogs(c) && KeysDiffer(raws)
    requires forall raw | raw in raws :: FromBlocks(raw, c, from, upTo)
    ensures KeysDiffer(raws + BlockLogs(c, upTo))
  {
    var last := BlockLogs(c, upTo);
    var all := raws + last;
    forall p, q | 0 <= p < q < |all| ensures !SameKey(all[p], all[q]) {
      if q >= |raws| {
        assert IsLog(all[q], c, upTo, q - |raws|);
        if p < |raws| {
          assert all[p] in raws && FromBlocks(all[p], c, from, upTo);
          var n: nat, i: nat :| from <= n < upTo && IsLog(all[p], c, n, i);
          DifferentBlocks(all[p], all[q], c, n, i, upTo, q - |raws|);
        } else {
          assert IsLog(all[p], c, upTo, p - |raws|);
          DifferentBlocks(all[p], all[q], c, upTo, p - |raws|, upTo, q - |raws|);
        }
      }
    }
  }

  lemma {:induction false} LogsDistinct(c: Branch, from: nat, until: nat)
    requires DistinctLogs(c)
    ensures KeysDiffer(LogsUntil(c, from, until))
  {
    if from < until {
      LogsDistinct(c, from, until - 1);
      LogsAreLogs(c, from, until - 1);
      KeysDifferLonger(LogsUntil(c, from, until - 1), c, from, until - 1);
    }
  }

  lemma {:induction false} CountIsLength(c: Branch, from: nat, until: nat)
    ensures |LogsUntil(c, from, until)| == LogCount(c, from, until)
  {
    if from < until { CountIsLength(c, from, until - 1); }
  }

  lemma {:induction false} CountsJoin(c: Branch, from: nat, mid: nat, until: nat)
    requires from <= mid <= until
    ensures LogCount(c, from, mid) + LogCount(c, mid, until) == LogCount(c, from, until)
  {
    if mid < until { CountsJoin(c, from, mid, until - 1); }
  }

  function KeysOf(logs: seq<Log>): (keys: seq<Identity>)
    ensures |keys| == |logs| && forall i | 0 <= i < |logs| :: keys[i] == Identity(logs[i].txHash, logs[i].logIndex)
  {
    seq(|logs|, i requires 0 <= i < |logs| => Identity(logs[i].txHash, logs[i].logIndex))
  }

  /** The keys of all logs of the blocks from..until - 1. */
  function KeysBetween(c: Branch, from: nat, until: nat): seq<Identity> {
    if until <= from then []
    else KeysBetween(c, from, until - 1) + if until <= |c| then KeysOf(c[until - 1].logs) else []
  }

  lemma {:induction false} KeysCount(c: Branch, from: nat, until: nat)
    ensures |KeysBetween(c, from, until)| == LogCount(c, from, until)
  {
    if from < until { KeysCount(c, from, until - 1); }
  }

  lemma {:induction false} KeyIsThere(c: Branch, from: nat, until: nat, n: nat, l: Log)
    requires from <= n < until && LogAt(c, n, l)
    ensures Identity(l.txHash, l.logIndex) in KeysBetween(c, from, until)
  {
    if n < until - 1 {
      KeyIsThere(c, from, until - 1, n, l);
    } else {
      var i :| 0 <= i < |c[n].logs| && c[n].logs[i] == l;
      assert KeysOf(c[n].logs)[i] == Identity(l.txHash, l.logIndex);
    }
  }

  lemma RowKey(e: Event, c: Branch, h: Hash, from: nat)
    requires Belongs(e, h, from) && h <= c
    ensures IdentityOf(e) in KeysBetween(c, from, |h|)
  {
    var l :| LogAt(h, e.blockNumber, l) && l.strict && e == ActivityCoverage.RowOf(h[..e.blockNumber + 1], l);
    KeyIsThere(c, from, |h|, e.blockNumber, l);
  }

  /** The covered rows are at most as many as the logs of their blocks. */
  lemma RowsBound(rows: map<Identity, Event>, c: Branch, h: Hash, from: nat)
    requires Exact(rows, h, from) && h <= c && KeyedByIdentity(rows)
    ensures |rows| <= LogCount(c, from, |h|)
  {
    var keys := KeysBetween(c, from, |h|);
    var all := set k | k in keys;
    forall k | k in rows ensures k in all {
      assert Belongs(rows[k], h, from);
      RowKey(rows[k], c, h, from);
    }
    SubsetSize(rows.Keys, all);
    SetOfSeq(keys);
    KeysCount(c, from, |h|);
  }

  /** The covered rows and the next page together are at most the logs of all their blocks. */
  lemma Room(rows: map<Identity, Event>, h: Hash, c: Branch, deploy: nat, end: nat)
    requires deploy <= |h| <= end < |c| && Exact(rows, h, deploy) && h <= c && KeyedByIdentity(rows)
    ensures |rows| + |LogsBetween(c, |h|, end)| <= LogCount(c, deploy, end + 1)
  {
    RowsBound(rows, c, h, deploy);
    CountIsLength(c, |h|, end + 1);
    CountsJoin(c, deploy, |h|, end + 1);
  }

  lemma CalmRange(c: Branch, deploy: nat, limits: Limits, maxEvents: nat, start: nat, end: nat)
    requires CalmChain(c, deploy, limits, maxEvents) && deploy <= start <= end < |c| && end - start < PAGE
    ensures CleanRange(c, start, end, limits)
  {
    var logs := LogsBetween(c, start, end);
    assert AnswerFits(c, start, end, limits);
    CountIsLength(c, start, end + 1);
    LogsAreLogs(c, start, end + 1);
    forall p | 0 <= p < |logs| ensures GoodRaw(c, logs[p], start, end) {
      assert logs[p] in logs;
      assert FromBlocks(logs[p], c, start, end + 1);
      var n: nat, i: nat :| start <= n < end + 1 && IsLog(logs[p], c, n, i);
      assert LogAt(c, n, c[n].logs[i]);
    }
  }

  /** Row i carries the identity of log i. */
  predicate SameIdentities(rows: seq<Event>, logs: seq<RawLog>) {
    |rows| == |logs| &&
    forall i | 0 <= i < |rows| :: logs[i].txHash == Some(rows[i].txHash) && logs[i].logIndex == Some(rows[i].logIndex)
  }

  lemma SameKeySameBlock(e: Event, e': Event, c: Branch, h: Hash, h': Hash)
    requires DistinctLogs(c) && h <= c && h' <= c && IdentityOf(e) == IdentityOf(e')
    requires RowAt(e, h, e.blockNumber) && RowAt(e', h', e'.blockNumber)
    ensures e.blockNumber == e'.blockNumber
  {
    var n, m := e.blockNumber, e'.blockNumber;
    var l :| LogAt(h, n, l) && l.strict && e == ActivityCoverage.RowOf(h[..n + 1], l);
    var l' :| LogAt(h', m, l') && l'.strict && e' == ActivityCoverage.RowOf(h'[..m + 1], l');
    var i :| 0 <= i < |c[n].logs| && c[n].logs[i] == l;
    var j :| 0 <= j < |c[m].logs| && c[m].logs[j] == l';
    assert OwnKey(c, n, i, m, j);
  }

  /** A row of the page passes every check of the insert. */
  lemma PageRowFits(e: Event, rows: map<Identity, Event>, cutoff: Hash, c: Branch, h: Hash, deploy: nat, next: nat,
                    limits: Limits, maxEvents: nat)
    requires CalmChain(c, deploy, limits, maxEvents) && deploy <= next
    requires Belongs(e, h, next) && h <= c
    requires Exact(rows, cutoff, deploy) && cutoff <= c && |cutoff| == next
    requires forall k | k in rows :: IdentityOf(rows[k]) == k
    ensures ValidEvent(e) && IdentityOf(e) !in rows
  {
    var n := e.blockNumber;
    var l :| LogAt(h, n, l) && l.strict && e == ActivityCoverage.RowOf(h[..n + 1], l);
    assert h[..n + 1] == c[..n + 1] && LogAt(c, n, l);
    if IdentityOf(e) in rows {
      assert Belongs(rows[IdentityOf(e)], cutoff, deploy);
      SameKeySameBlock(e, rows[IdentityOf(e)], c, h, cutoff);
    }
  }

  ghost predicate KeyedByIdentity(rows: map<Identity, Event>) {
    forall k | k in rows :: IdentityOf(rows[k]) == k
  }

  /** The next page of a calm chain c: rows cover c up to h, the page runs on to end. */
  ghost predicate NextPage(rows: map<Identity, Event>, h: Hash, c: Branch, deploy: nat, end: Hash, page: seq<Event>,
                           logs: seq<RawLog>, limits: Limits, maxEvents: nat) {
    && CalmChain(c, deploy, limits, maxEvents) && deploy <= |h| < |end| && h <= c && end <= c
    && Exact(rows, h, deploy) && KeyedByIdentity(rows)
    && PageExact(page, end, |h|) && SameIdentities(page, logs) && logs == LogsBetween(c, |h|, |end| - 1)
  }

  lemma PageFits(rows: map<Identity, Event>, h: Hash, c: Branch, deploy: nat, end: Hash, page: seq<Event>,
                 logs: seq<RawLog>, limits: Limits, maxEvents: nat)
    requires NextPage(rows, h, c, deploy, end, page, logs, limits, maxEvents)
    ensures forall e | e in page :: ValidEvent(e) && Fits(e, |h|, |end| - 1) && IdentityOf(e) !in rows
  {
    forall e | e in page ensures ValidEvent(e) && Fits(e, |h|, |end| - 1) && IdentityOf(e) !in rows {
      assert Belongs(e, end, |h|);
      PageRowFits(e, rows, h, c, end, deploy, |h|, limits, maxEvents);
    }
  }

  lemma PageDistinct(rows: map<Identity, Event>, h: Hash, c: Branch, deploy: nat, end: Hash, page: seq<Event>,
                     logs: seq<RawLog>, limits: Limits, maxEvents: nat)
    requires NextPage(rows, h, c, deploy, end, page, logs, limits, maxEvents)
    ensures forall i, j | 0 <= i < j < |page| :: IdentityOf(page[i]) != IdentityOf(page[j])
  {
    LogsDistinct(c, |h|, |end|);
    forall i, j | 0 <= i < j < |page| ensures IdentityOf(page[i]) != IdentityOf(page[j]) {
      assert !SameKey(logs[i], logs[j]);
    }
  }

  lemma PageRoom(rows: map<Identity, Event>, h: Hash, c: Branch, deploy: nat, end: nat, limits: Limits, maxEvents: nat)
    requires CalmChain(c, deploy, limits, maxEvents) && deploy <= |h| <= end < |c|
    requires Exact(rows, h, deploy) && h <= c && KeyedByIdentity(rows)
    ensures |rows| + |LogsBetween(c, |h|, end)| <= maxEvents
  {
    Room(rows, h, c, deploy, end);
    assert TotalFits(c, deploy, end, maxEvents);
  }

  ghost predicate OnBranch(a: Option<Anchor>, c: Branch) {
    a.Some? ==> a.value.blockHash <= c
  }

  /** The chain below the next block, whether or not a page was committed yet. */
  lemma Below(db: Db, c: Branch, maxEvents: nat) returns (h: Hash)
    requires Consistent(db, maxEvents) && Faithful(db) && OnBranch(db.state.cutoff, c) && db.state.nextBlock <= |c|
    ensures Exact(db.events, h, db.state.deployBlock) && h <= c && |h| == db.state.nextBlock
  {
    h := if db.state.cutoff.Some? then db.state.cutoff.value.blockHash else c[..db.state.nextBlock];
  }

  lemma PageInserted(rows: map<Identity, Event>, h: Hash, c: Branch, deploy: nat, end: Hash, page: seq<Event>,
                     logs: seq<RawLog>, limits: Limits, maxEvents: nat)
    requires NextPage(rows, h, c, deploy, end, page, logs, limits, maxEvents)
    ensures Inserted(rows, page, |h|, |end| - 1, maxEvents).Ok?
  {
    PageFits(rows, h, c, deploy, end, page, logs, limits, maxEvents);
    PageDistinct(rows, h, c, deploy, end, page, logs, limits, maxEvents);
    PageRoom(rows, h, c, deploy, |end| - 1, limits, maxEvents);
    InsertedSucceeds(rows, page, |h|, |end| - 1, maxEvents);
  }

  lemma AdvancedValid(s: State, c: Branch, end: Anchor)
    requires ValidState(s) && PageShape(s, end) && RealAnchor(end) && end.blockHash <= c && |c| < TWO64
    ensures ValidState(Advanced(s, end))
  {
  }

  /** On a calm chain the next page is accepted. */
  lemma PageAccepted(db: Db, h: Hash, c: Branch, end: Anchor, page: seq<Event>, logs: seq<RawLog>, limits: Limits,
                     maxEvents: nat)
    requires ValidState(db.state) && db.state.reorg != Detected && PageShape(db.state, end) && db.state.nextBlock == |h|
    requires RealAnchor(end) &&
               NextPage(db.events, h, c, db.state.deployBlock, end.blockHash, page, logs, limits, maxEvents)
    ensures Committed(db, db.state.nextBlock, end, page, maxEvents).Ok?
  {
    PageInserted(db.events, h, c, db.state.deployBlock, end.blockHash, page, logs, limits, maxEvents);
    AdvancedValid(db.state, c, end);
  }
}
