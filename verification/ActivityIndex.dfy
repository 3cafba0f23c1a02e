/** The indexer: pages the contract's logs from a chain that may switch branch at every remote call
    into a table that other tasks may mark at every remote call. */
module ActivityIndex {
  import opened Wrappers
  import opened Chain
  import opened ActivityStore
  import opened ActivityCoverage
  import opened ActivityCalm

  ghost predicate FaithfulAt(trace: seq<Db>, i: nat, maxEvents: nat)
    requires i < |trace|
  {
    Faithful(trace[i]) && Consistent(trace[i], maxEvents)
  }

  /** All states of the table belong to one chain. */
  ghost predicate OneChainId(trace: seq<Db>, chainId: nat) {
    forall i | 0 <= i < |trace| :: trace[i].state.chainId == chainId
  }

  /** Every state the table has ever been in, at any point a process may stop, keeps the invariant. */
  ghost predicate Sound(store: Store)
    reads store
  {
    && store.Valid() && OneChainId(store.trace, store.chainId)
    && forall i | 0 <= i < |store.trace| :: FaithfulAt(store.trace, i, store.maxEvents)
  }

  lemma SoundNow(store: Store)
    requires Sound(store)
    ensures Faithful(store.Now())
  {
    assert FaithfulAt(store.trace, |store.trace| - 1, store.maxEvents);
  }

  /** One more state. */
  twostate lemma StillSound(store: Store)
    requires old(Sound(store)) && store.Valid() && store.trace == old(store.trace) + [store.Now()]
    requires Faithful(store.Now())
    ensures Sound(store)
  {
    forall i | 0 <= i < |store.trace| ensures FaithfulAt(store.trace, i, store.maxEvents) {
      if i < |old(store.trace)| {
        assert FaithfulAt(old(store.trace), i, store.maxEvents);
      }
    }
  }

  function AnchorOf(h: Header): Anchor {
    Anchor(h.number, h.hash, h.timestamp)
  }

  // ---------------------------------------------------------------- other tasks

  function FailureState(s: State, reason: Reason): State {
    s.(coverage := if s.cutoff.Some? then Partial else Coverage.Unavailable, reason := Some(reason),
       lastValidatedAt := None)
  }

  function DetectedState(s: State, at: nat): State {
    s.(coverage := Coverage.Unavailable, reason := Some(ReorgRebuild), lastValidatedAt := None, reorg := Detected,
       lastDetectedAt := Some(at))
  }

  method SetFailure(store: Store, reason: Reason)
    requires Sound(store)
    modifies store
    ensures Sound(store) && old(store.trace) <= store.trace && CoreOf(store.Now()) == old(CoreOf(store.Now()))
    ensures store.state == FailureState(old(store.state), reason)
    ensures store.state.coverage == (match store.state.cutoff case None => Coverage.Unavailable case Some(_) => Partial)
  {
    SoundNow(store);
    var r := store.UpdateState(store.state.nextBlock, current => Ok(FailureState(current, reason)));
    StillSound(store);
  }

  method MarkDetected(store: Store, at: nat)
    requires Sound(store)
    modifies store
    ensures Sound(store) && old(store.trace) <= store.trace && CoreOf(store.Now()) == old(CoreOf(store.Now()))
    ensures store.state == DetectedState(old(store.state), at)
  {
    SoundNow(store);
    var r := store.UpdateState(store.state.nextBlock, current => Ok(DetectedState(current, at)));
    StillSound(store);
  }

  /** What the other tasks may do to the table while this one waits: request handlers validate the checkpoint,
      and a second process may open the database. */
  method Interfere(store: Store, calm: bool)
    requires Sound(store)
    modifies store
    ensures Sound(store) && old(store.trace) <= store.trace && CoreOf(store.Now()) == old(CoreOf(store.Now()))
    ensures calm ==> store.Now() == old(store.Now())
  {
    if !calm {
      SoundNow(store);
      if * {
        SetFailure(store, RpcUnavailable);
      } else if * {
        var at: nat := *;
        MarkDetected(store, at);
      } else if * {
        ReopenedFaithful(store.Now());
        store.Reopen();
        StillSound(store);
      }
    }
  }

  /** A state of the table whose rows are what they should be. */
  type TrueDb = db: Db | Faithful(db) witness Created(0, 0, 0)

  /** What others may do to the table while a validation waits: anything that a sound task may commit, page by page,
      resets and completions included. */
  method Meanwhile(store: Store, calm: bool)
    requires Sound(store)
    modifies store
    ensures Sound(store) && old(store.trace) <= store.trace
    ensures calm ==> store.Now() == old(store.Now())
  {
    if calm { return; }
    var steps: nat :| true;
    for i := 0 to steps
      invariant Sound(store) && old(store.trace) <= store.trace
    {
      var next: TrueDb :| true;
      if Consistent(next, store.maxEvents) && next.state.chainId == store.chainId { Overwrite(store, next); }
    }
  }

  /** Another task's transaction. */
  method Overwrite(store: Store, next: Db)
    requires Sound(store) && Faithful(next) && Consistent(next, store.maxEvents) && next.state.chainId == store.chainId
    modifies store
    ensures Sound(store) && store.trace == old(store.trace) + [next] && store.Now() == next
  {
    store.state, store.events := next.state, next.events;
    store.trace := store.trace + [next];
    StillSound(store);
  }

  // ---------------------------------------------------------------- remote calls

  method FetchHead(node: Node, store: Store) returns (r: Result<Header, Error>)
    requires node.Valid() && Sound(store)
    modifies node`branch, node`history, node`answers, store
    ensures node.Valid() && node.history == old(node.history) + [node.branch]
    ensures Sound(store) && old(store.trace) <= store.trace && CoreOf(store.Now()) == old(CoreOf(store.Now()))
    ensures r.Ok? ==> r.value == HeaderAt(node.branch, |node.branch| - 1)
    ensures node.calm ==> node.branch == old(node.branch) && store.Now() == old(store.Now()) && r.Ok?
  {
    Interfere(store, node.calm);
    var h := node.GetHead();
    r := if h.Ok? then Ok(h.value) else Err(RpcFailed);
  }

  method FetchBlock(node: Node, store: Store, n: nat) returns (r: Result<Header, Error>)
    requires node.Valid() && Sound(store)
    modifies node`branch, node`history, node`answers, store
    ensures node.Valid() && node.history == old(node.history) + [node.branch]
    ensures Sound(store) && old(store.trace) <= store.trace && CoreOf(store.Now()) == old(CoreOf(store.Now()))
    ensures r.Ok? ==> n < |node.branch| && r.value == HeaderAt(node.branch, n)
    ensures node.calm ==>
              node.branch == old(node.branch) && store.Now() == old(store.Now()) && (n < |node.branch| ==> r.Ok?)
  {
    Interfere(store, node.calm);
    var h := node.GetBlock(n);
    r := if h.Ok? then Ok(h.value) else Err(RpcFailed);
  }

  method FetchLogs(node: Node, store: Store, from: nat, upTo: nat) returns (r: Result<seq<RawLog>, Error>)
    requires node.Valid() && Sound(store)
    modifies node`branch, node`history, node`answers, store
    ensures node.Valid() && node.history == old(node.history) + [node.branch]
    ensures Sound(store) && old(store.trace) <= store.trace && CoreOf(store.Now()) == old(CoreOf(store.Now()))
    ensures r.Ok? ==> Honest(r.value, node.branch, from, upTo)
    ensures node.calm ==> node.branch == old(node.branch) && store.Now() == old(store.Now()) &&
                          r == Ok(LogsBetween(node.branch, from, upTo))
  {
    Interfere(store, node.calm);
    var logs := node.GetLogs(from, upTo);
    r := if logs.Ok? then Ok(logs.value) else Err(RpcFailed);
  }

  /** Is the anchor's block the canonical block of its number right now? */
  method Pinned(node: Node, store: Store, expected: Anchor) returns (r: Result<bool, Error>)
    requires node.Valid() && Sound(store) && RealAnchor(expected)
    modifies node`branch, node`history, node`answers, store
    ensures node.Valid() && node.history == old(node.history) + [node.branch]
    ensures Sound(store) && old(store.trace) <= store.trace && CoreOf(store.Now()) == old(CoreOf(store.Now()))
    ensures r.Ok? ==> (r.value <==> expected.blockHash <= node.branch)
    ensures node.calm ==> node.branch == old(node.branch) && store.Now() == old(store.Now()) &&
                          (expected.blockNumber < |node.branch| || expected.blockHash <= node.branch ==> r.Ok?)
  {
    var block :- FetchBlock(node, store, expected.blockNumber);
    r := Ok(AnchorOf(block) == expected);
  }

  /** The time budget and the abort signal. */
  method Check(calm: bool) returns (r: Result<(), Error>)
    ensures r.Ok? || r == Err(OverBudget)
    ensures calm ==> r.Ok?
  {
    r := Ok(());
    if !calm {
      if * { r := Err(OverBudget); }
    }
  }

  // ---------------------------------------------------------------- one page

  predicate WellPlaced(raw: RawLog, start: nat, end: nat) {
    && !raw.removed && raw.ours && raw.blockNumber.Some? && raw.blockHash.Some? && raw.txHash.Some?
    && raw.logIndex.Some? && raw.txIndex.Some?
    && start <= raw.blockNumber.value <= end
    && 0 <= raw.logIndex.value <= MAX_SAFE && 0 <= raw.txIndex.value <= MAX_SAFE
  }

  predicate InBlock(raw: RawLog, block: Header)
    requires Named(raw)
  {
    && block.number == raw.blockNumber.value && block.hash == raw.blockHash.value
    && raw.txIndex.value < |block.txs| && block.txs[raw.txIndex.value] == raw.txHash.value
  }

  function RowOfRaw(raw: RawLog, block: Header): Event
    requires Named(raw)
  {
    Event(raw.txHash.value, raw.logIndex.value, raw.blockNumber.value, raw.blockHash.value, raw.txIndex.value,
          block.timestamp, raw.name, raw.demandId, raw.payload)
  }

  ghost predicate SeenAt(h: Header, history: seq<Branch>, at: nat) {
    at < |history| && h.number < |history[at]| && h == HeaderAt(history[at], h.number)
  }

  /** A row built from the log and from a header that was canonical at some instant since `since`. */
  ghost predicate Traced(e: Event, raw: RawLog, history: seq<Branch>, since: nat, start: nat, end: nat) {
    && WellPlaced(raw, start, end) && Named(raw) && raw.strict
    && exists block, at :: since <= at && SeenAt(block, history, at) && InBlock(raw, block) && e == RowOfRaw(raw, block)
  }

  lemma TracedLater(e: Event, raw: RawLog, history: seq<Branch>, history': seq<Branch>, since: nat, start: nat,
                    end: nat)
    requires Traced(e, raw, history, since, start, end) && history <= history'
    ensures Traced(e, raw, history', since, start, end)
  {
    var block, at :| since <= at && SeenAt(block, history, at) && InBlock(raw, block) && e == RowOfRaw(raw, block);
    assert SeenAt(block, history', at);
  }

  /** Every cached header was canonical at some instant since `since`. */
  ghost predicate Cached(headers: map<nat, Header>, history: seq<Branch>, since: nat) {
    forall n | n in headers :: exists at :: since <= at && SeenAt(headers[n], history, at)
  }

  ghost predicate CachedFrom(headers: map<nat, Header>, c: Branch) {
    forall n | n in headers :: n < |c| && headers[n] == HeaderAt(c, n)
  }

  lemma CachedLater(headers: map<nat, Header>, history: seq<Branch>, history': seq<Branch>, since: nat)
    requires Cached(headers, history, since) && history <= history'
    ensures Cached(headers, history', since)
  {
    forall n | n in headers ensures exists at :: since <= at && SeenAt(headers[n], history', at) {
      var at :| since <= at && SeenAt(headers[n], history, at);
      assert SeenAt(headers[n], history', at);
    }
  }

  lemma CachedMore(headers: map<nat, Header>, history: seq<Branch>, since: nat, n: nat, h: Header)
    requires Cached(headers, history, since) && since < |history| && SeenAt(h, history, |history| - 1)
    ensures Cached(headers[n := h], history, since)
  {
  }

  /** Headers are fetched once per block. */
  method HeaderOf(node: Node, store: Store, n: nat, headers: map<nat, Header>, ghost since: nat)
    returns (r: Result<map<nat, Header>, Error>)
    requires node.Valid() && Sound(store) && since <= |node.history|
    requires Cached(headers, node.history, since) && (node.calm ==> CachedFrom(headers, node.branch))
    modifies node`branch, node`history, node`answers, store
    ensures node.Valid() && old(node.history) <= node.history
    ensures Sound(store) && old(store.trace) <= store.trace && CoreOf(store.Now()) == old(CoreOf(store.Now()))
    ensures r.Ok? ==> n in r.value && Cached(r.value, node.history, since)
    ensures n in headers ==> r == Ok(headers) && node.history == old(node.history)
    ensures node.calm ==> node.branch == old(node.branch) && store.Now() == old(store.Now())
    ensures node.calm && r.Ok? ==> CachedFrom(r.value, node.branch)
    ensures node.calm && n < |node.branch| ==> r.Ok?
  {
    if n in headers { return Ok(headers); }
    var block :- FetchBlock(node, store, n);
    CachedLater(headers, old(node.history), node.history, since);
    CachedMore(headers, node.history, since, n, block);
    r := Ok(headers[n := block]);
  }

  /** Checks one log against its header and turns it into a row. */
  function Row(raw: RawLog, block: Header): (r: Result<Event, Error>)
    requires Named(raw)
    ensures r.Ok? <==> && block.number == raw.blockNumber.value && block.hash == raw.blockHash.value
                       && raw.txIndex.value < |block.txs| && block.txs[raw.txIndex.value] == raw.txHash.value
                       && raw.strict && |raw.payload| <= MAX_PAYLOAD
    ensures r.Ok? ==> r.value.txHash == raw.txHash.value && r.value.timestamp == block.timestamp
  {
    if !InBlock(raw, block) then Err(ReorgSeen)
    else if !raw.strict then Err(LogInvalid)
    else if |raw.payload| > MAX_PAYLOAD then Err(OverCapacity)
    else Ok(RowOfRaw(raw, block))
  }

  lemma RowTraced(raw: RawLog, headers: map<nat, Header>, history: seq<Branch>, since: nat, start: nat, end: nat)
    requires WellPlaced(raw, start, end) && raw.blockNumber.value in headers && Cached(headers, history, since)
    requires Row(raw, headers[raw.blockNumber.value]).Ok?
    ensures Traced(Row(raw, headers[raw.blockNumber.value]).value, raw, history, since, start, end)
  {
    var block := headers[raw.blockNumber.value];
    var at :| since <= at && SeenAt(block, history, at);
  }

  lemma GoodRow(raw: RawLog, headers: map<nat, Header>, c: Branch, start: nat, end: nat)
    requires GoodRaw(c, raw, start, end) && CachedFrom(headers, c)
    ensures WellPlaced(raw, start, end) && raw.blockNumber.value < |c|
    ensures raw.blockNumber.value in headers ==> Row(raw, headers[raw.blockNumber.value]).Ok?
  {
    var n, l :| start <= n <= end && GoodLog(c, n, l) && raw == Chain.RawOf(c[..n + 1], l);
  }

  method CollectRow(node: Node, store: Store, raw: RawLog, headers: map<nat, Header>, start: nat, end: nat,
                    ghost since: nat)
    returns (r: Result<(Event, map<nat, Header>), Error>)
    requires node.Valid() && Sound(store) && since <= |node.history|
    requires Cached(headers, node.history, since) && (node.calm ==> CachedFrom(headers, node.branch))
    modifies node`branch, node`history, node`answers, store
    ensures node.Valid() && old(node.history) <= node.history
    ensures Sound(store) && old(store.trace) <= store.trace && CoreOf(store.Now()) == old(CoreOf(store.Now()))
    ensures r.Ok? ==> Cached(r.value.1, node.history, since) && Traced(r.value.0, raw, node.history, since, start, end)
    ensures node.calm ==> node.branch == old(node.branch) && store.Now() == old(store.Now())
    ensures node.calm && r.Ok? ==> CachedFrom(r.value.1, node.branch)
    ensures node.calm && GoodRaw(node.branch, raw, start, end) ==> r.Ok?
  {
    if node.calm && GoodRaw(node.branch, raw, start, end) { GoodRow(raw, headers, node.branch, start, end); }
    var _ :- Check(node.calm);
    if !WellPlaced(raw, start, end) { return Err(LogInvalid); }
    var known :- HeaderOf(node, store, raw.blockNumber.value, headers, since);
    if node.calm && GoodRaw(node.branch, raw, start, end) { GoodRow(raw, known, node.branch, start, end); }
    var row :- Row(raw, known[raw.blockNumber.value]);
    RowTraced(raw, known, node.history, since, start, end);
    r := Ok((row, known));
  }

  ghost predicate AllTraced(rows: seq<Event>, logs: seq<RawLog>, history: seq<Branch>, since: nat, start: nat,
                            end: nat) {
    |rows| <= |logs| && forall i | 0 <= i < |rows| :: Traced(rows[i], logs[i], history, since, start, end)
  }

  lemma AllTracedLater(rows: seq<Event>, logs: seq<RawLog>, history: seq<Branch>, history': seq<Branch>, since: nat,
                       start: nat, end: nat)
    requires AllTraced(rows, logs, history, since, start, end) && history <= history'
    ensures AllTraced(rows, logs, history', since, start, end)
  {
    forall i | 0 <= i < |rows| ensures Traced(rows[i], logs[i], history', since, start, end) {
      TracedLater(rows[i], logs[i], history, history', since, start, end);
    }
  }

  method CollectRows(node: Node, store: Store, logs: seq<RawLog>, start: nat, end: nat)
    returns (r: Result<seq<Event>, Error>)
    requires node.Valid() && Sound(store)
    modifies node`branch, node`history, node`answers, store
    ensures node.Valid() && old(node.history) <= node.history
    ensures Sound(store) && old(store.trace) <= store.trace && CoreOf(store.Now()) == old(CoreOf(store.Now()))
    ensures r.Ok? ==> |r.value| == |logs| && AllTraced(r.value, logs, node.history, old(|node.history|), start, end)
    ensures node.calm ==> node.branch == old(node.branch) && store.Now() == old(store.Now())
    ensures node.calm && AllGood(node.branch, logs, start, end) ==> r.Ok?
  {
    var headers: map<nat, Header> := map[];
    var rows: seq<Event> := [];
    ghost var since := |node.history|;
    for i := 0 to |logs|
      invariant node.Valid() && old(node.history) <= node.history
      invariant Sound(store) && old(store.trace) <= store.trace && CoreOf(store.Now()) == old(CoreOf(store.Now()))
      invariant Cached(headers, node.history, since) && (node.calm ==> CachedFrom(headers, node.branch))
      invariant |rows| == i && AllTraced(rows, logs, node.history, since, start, end)
      invariant node.calm ==> node.branch == old(node.branch) && store.Now() == old(store.Now())
    {
      ghost var before := node.history;
      var row :- CollectRow(node, store, logs[i], headers, start, end, since);
      AllTracedLater(rows, logs, before, node.history, since, start, end);
      headers := row.1;
      rows := rows + [row.0];
    }
    r := Ok(rows);
  }

  /** A traced row whose block's descendant h was canonical all along is the row of a log of h. */
  lemma TracedIsRow(e: Event, raw: RawLog, history: seq<Branch>, since: nat, start: nat, h: Hash)
    requires |h| > 0 && Traced(e, raw, history, since, start, |h| - 1) && Authentic(raw)
    requires forall at | since <= at < |history| :: h <= history[at]
    ensures start <= e.blockNumber < |h|
    ensures LogAt(h, e.blockNumber, LogOf(raw)) && raw.strict
    ensures e == ActivityCoverage.RowOf(h[..e.blockNumber + 1], LogOf(raw))
  {
    var block, at :| since <= at && SeenAt(block, history, at) && InBlock(raw, block) && e == RowOfRaw(raw, block);
    var n := e.blockNumber;
    assert history[at][..n + 1] == h[..n + 1];
    assert h[..n + 1][n] == h[n];
  }

  ghost predicate AlwaysOn(history: seq<Branch>, since: nat, h: Hash) {
    forall at | since <= at < |history| :: h <= history[at]
  }

  lemma RowsBelong(rows: seq<Event>, logs: seq<RawLog>, history: seq<Branch>, since: nat, start: nat, h: Hash, e: Event)
    requires |h| > 0 && AlwaysOn(history, since, h) && (forall raw | raw in logs :: Authentic(raw))
    requires AllTraced(rows, logs, history, since, start, |h| - 1) && e in rows
    ensures Belongs(e, h, start)
  {
    var i :| 0 <= i < |rows| && rows[i] == e;
    TracedIsRow(e, logs[i], history, since, start, h);
  }

  lemma RowsComplete(rows: seq<Event>, logs: seq<RawLog>, history: seq<Branch>, since: nat, start: nat, h: Hash,
                     c: Branch, n: nat, l: Log)
    requires |h| > 0 && AlwaysOn(history, since, h) && Honest(logs, c, start, |h| - 1) && h <= c
    requires |rows| == |logs| && AllTraced(rows, logs, history, since, start, |h| - 1)
    requires start <= n && LogAt(h, n, l)
    ensures InPage(rows, h, n, l)
  {
    assert c[..n + 1] == h[..n + 1] && HasAllOf(logs, c[..n + 1], c[n].logs);
    var raw := Chain.RawOf(h[..n + 1], l);
    var i :| 0 <= i < |logs| && logs[i] == raw;
    TracedIsRow(rows[i], raw, history, since, start, h);
    assert rows[i] in rows;
  }

  /** The argument for one page: the end block h was canonical at tb and at ta, hence at every instant between,
      so the log answer at tl and every header since then come from branches through h. */
  lemma PageIsExact(history: seq<Branch>, mark: nat, tb: nat, tl: nat, ta: nat, h: Hash, logs: seq<RawLog>,
                    rows: seq<Event>, start: nat)
    requires NoReinstatement(history, mark) && mark <= tb <= tl <= ta < |history|
    requires |h| > 0 && h <= history[tb] && h <= history[ta]
    requires Honest(logs, history[tl], start, |h| - 1)
    requires |rows| == |logs| && AllTraced(rows, logs, history[..ta], tl + 1, start, |h| - 1)
    ensures PageExact(rows, h, start)
  {
    forall at | tb <= at <= ta ensures h <= history[at] {
      Between(history, mark, tb, at, ta, h);
    }
    assert AlwaysOn(history[..ta], tl + 1, h);
    forall e | e in rows ensures Belongs(e, h, start) {
      RowsBelong(rows, logs, history[..ta], tl + 1, start, h, e);
    }
    forall n, l | start <= n && LogAt(h, n, l) ensures InPage(rows, h, n, l) {
      RowsComplete(rows, logs, history[..ta], tl + 1, start, h, history[tl], n, l);
    }
  }

  function PageEnd(next: nat, target: nat): nat {
    if next + (PAGE - 1) < target then next + (PAGE - 1) else target
  }

  /** The logs of the range, each checked against its header. */
  method QueryRows(node: Node, store: Store, start: nat, end: nat, limits: Limits)
    returns (r: Result<seq<Event>, Error>, ghost logs: seq<RawLog>)
    requires node.Valid() && Sound(store)
    modifies node`branch, node`history, node`answers, store
    ensures node.Valid() && old(node.history) <= node.history
    ensures Sound(store) && old(store.trace) <= store.trace && CoreOf(store.Now()) == old(CoreOf(store.Now()))
    ensures r.Ok? ==> && old(|node.history|) < |node.history| && |r.value| == |logs| <= limits.maxDemands * 10
                      && Honest(logs, node.history[old(|node.history|)], start, end)
                      && AllTraced(r.value, logs, node.history, old(|node.history|) + 1, start, end)
    ensures node.calm ==> node.branch == old(node.branch) && store.Now() == old(store.Now())
    ensures node.calm && r.Ok? ==> logs == LogsBetween(node.branch, start, end)
    ensures node.calm && CleanRange(node.branch, start, end, limits) ==> r.Ok?
  {
    logs := [];
    var _ :- Check(node.calm);
    var answer :- FetchLogs(node, store, start, end);
    logs := answer;
    if |answer| > limits.maxDemands * 10 { return Err(OverCapacity), logs; }
    var rows :- CollectRows(node, store, answer, start, end);
    var _ :- Check(node.calm);
    r := Ok(rows);
  }

  /** One scan, call by call: the end block is read on c1, the logs right after, the end block again on c3. */
  lemma ScanIsExact(before: seq<Branch>, c1: Branch, seen: seq<Branch>, c3: Branch, mark: nat, start: nat, end: nat,
                    logs: seq<RawLog>, rows: seq<Event>)
    requires mark <= |before| && NoReinstatement(seen + [c3], mark)
    requires before + [c1] <= seen && |before| + 1 < |seen|
    requires end < |c1| && end < |c3| && c1[..end + 1] == c3[..end + 1]
    requires Honest(logs, seen[|before| + 1], start, end)
    requires |rows| == |logs| && AllTraced(rows, logs, seen, |before| + 2, start, end)
    ensures PageExact(rows, c3[..end + 1], start) && SameIdentities(rows, logs)
  {
    var all := seen + [c3];
    assert all[|before|] == c1 && all[|seen|] == c3 && all[..|seen|] == seen;
    PageIsExact(all, mark, |before|, |before| + 1, |seen|, c3[..end + 1], logs, rows, start);
    forall i | 0 <= i < |rows|
      ensures logs[i].txHash == Some(rows[i].txHash) && logs[i].logIndex == Some(rows[i].logIndex)
    {
      assert Traced(rows[i], logs[i], seen, |before| + 2, start, end);
    }
  }

  /** What is known of a scan once its end block has been read on branch c1 and the logs after it. */
  ghost predicate Scanned(before: seq<Branch>, c1: Branch, seen: seq<Branch>, first: Header, logs: seq<RawLog>,
                          rows: seq<Event>, start: nat, end: nat) {
    && before + [c1] <= seen && |before| + 1 < |seen|
    && end < |c1| && first == HeaderAt(c1, end)
    && Honest(logs, seen[|before| + 1], start, end)
    && |rows| == |logs| && AllTraced(rows, logs, seen, |before| + 2, start, end)
  }

  /** The first read of the end block, then the rows. */
  method OpenScan(node: Node, store: Store, start: nat, end: nat, limits: Limits)
    returns (r: Result<(Header, seq<Event>), Error>, ghost logs: seq<RawLog>, ghost c1: Branch)
    requires node.Valid() && Sound(store)
    modifies node`branch, node`history, node`answers, store
    ensures node.Valid() && old(node.history) <= node.history
    ensures Sound(store) && old(store.trace) <= store.trace && CoreOf(store.Now()) == old(CoreOf(store.Now()))
    ensures r.Ok? ==> |r.value.1| <= limits.maxDemands * 10
    ensures r.Ok? ==> Scanned(old(node.history), c1, node.history, r.value.0, logs, r.value.1, start, end)
    ensures node.calm ==> node.branch == old(node.branch) == c1 && store.Now() == old(store.Now())
    ensures node.calm && r.Ok? ==> logs == LogsBetween(node.branch, start, end)
    ensures node.calm && CleanRange(node.branch, start, end, limits) ==> r.Ok?
  {
    logs, c1 := [], node.branch;
    var first := FetchBlock(node, store, end);
    if first.Err? { return Err(first.error), logs, c1; }
    c1 := node.branch;
    var rows;
    rows, logs := QueryRows(node, store, start, end, limits);
    r := if rows.Ok? then Ok((first.value, rows.value)) else Err(rows.error);
  }

  /** The scan stands only if its end block is still the same. */
  function Closed(first: Header, last: Header, rows: seq<Event>): Result<(Anchor, seq<Event>), Error> {
    if AnchorOf(first) != AnchorOf(last) then Err(ReorgSeen) else Ok((AnchorOf(last), rows))
  }

  /** A page as read, against the branch c3 of its last read. */
  ghost predicate PageRead(r: (Anchor, seq<Event>), c3: Branch, start: nat, end: nat) {
    && RealAnchor(r.0) && r.0.blockNumber == end && r.0.blockHash <= c3 && PageExact(r.1, r.0.blockHash, start)
  }

  lemma ClosedIsExact(before: seq<Branch>, c1: Branch, seen: seq<Branch>, c3: Branch, mark: nat, start: nat, end: nat,
                      first: Header, last: Header, logs: seq<RawLog>, rows: seq<Event>)
    requires mark <= |before| && NoReinstatement(seen + [c3], mark)
    requires Scanned(before, c1, seen, first, logs, rows, start, end)
    requires end < |c3| && last == HeaderAt(c3, end) && Closed(first, last, rows).Ok?
    ensures PageRead(Closed(first, last, rows).value, c3, start, end) && SameIdentities(rows, logs)
  {
    ScanIsExact(before, c1, seen, c3, mark, start, end, logs, rows);
  }

  /** The remote part of a page scan: its rows, between two reads of its end block. */
  method ReadRows(node: Node, store: Store, start: nat, end: nat, limits: Limits)
    returns (r: Result<(Anchor, seq<Event>), Error>, ghost logs: seq<RawLog>)
    requires node.Valid() && Sound(store) && start <= end
    modifies node`branch, node`history, node`answers, store
    ensures node.Valid() && old(node.history) <= node.history
    ensures Sound(store) && old(store.trace) <= store.trace && CoreOf(store.Now()) == old(CoreOf(store.Now()))
    ensures r.Ok? ==> |r.value.1| <= limits.maxDemands * 10
    ensures r.Ok? ==> PageRead(r.value, node.branch, start, end) && |node.history| > old(|node.history|)
    ensures node.calm ==> node.branch == old(node.branch) && store.Now() == old(store.Now())
    ensures r.Ok? ==> SameIdentities(r.value.1, logs)
    ensures node.calm && r.Ok? ==> logs == LogsBetween(node.branch, start, end)
    ensures node.calm && CleanRange(node.branch, start, end, limits) ==> r.Ok?
  {
    ghost var c1;
    var scan;
    scan, logs, c1 := OpenScan(node, store, start, end, limits);
    if scan.Err? { return Err(scan.error), logs; }
    ghost var seen := node.history;
    var last := FetchBlock(node, store, end);
    if last.Err? { return Err(last.error), logs; }
    r := Closed(scan.value.0, last.value, scan.value.1);
    if r.Ok? {
      ClosedIsExact(old(node.history), c1, seen, node.branch, node.mark, start, end, scan.value.0, last.value, logs,
                    scan.value.1);
    }
  }

  /** Two blocks that were canonical at one instant are on one chain. */
  lemma OneChain(c: Branch, h: Hash, h': Hash)
    requires h <= c && h' <= c && |h| <= |h'|
    ensures h <= h'
  {
  }

  /** The cutoff was canonical before the scan and after it, so also when the end block was read. */
  lemma CutoffContinues(history: seq<Branch>, mark: nat, t0: nat, ta: nat, t5: nat, cutoff: Anchor, end: Anchor)
    requires NoReinstatement(history, mark) && mark <= t0 <= ta <= t5 < |history|
    requires cutoff.blockHash <= history[t0] && cutoff.blockHash <= history[t5] && end.blockHash <= history[ta]
    requires |cutoff.blockHash| <= |end.blockHash|
    ensures cutoff.blockHash <= end.blockHash
  {
    Between(history, mark, t0, ta, t5, cutoff.blockHash);
    OneChain(history[ta], cutoff.blockHash, end.blockHash);
  }

  predicate CutoffBelow(cutoff: Option<Anchor>, next: nat) {
    cutoff.Some? ==> |cutoff.value.blockHash| == next
  }

  ghost predicate CanonicalAt(h: Hash, history: seq<Branch>, mark: nat, at: nat) {
    mark <= at < |history| && h <= history[at]
  }

  /** The page belongs to the end block, the end block continues the cutoff and was canonical at `at`. */
  ghost predicate PageHeld(r: (Anchor, seq<Event>), cutoff: Option<Anchor>, next: nat, end: nat,
                           history: seq<Branch>, mark: nat, at: nat) {
    && RealAnchor(r.0) && r.0.blockNumber == end && PageExact(r.1, r.0.blockHash, next)
    && Continues(cutoff, r.0) && CanonicalAt(r.0.blockHash, history, mark, at)
  }

  lemma HeldTogether(r: (Anchor, seq<Event>), cutoff: Option<Anchor>, next: nat, end: nat, history: seq<Branch>,
                     mark: nat,
                     t0: nat, at: nat)
    requires NoReinstatement(history, mark) && mark <= t0 <= at < |history| && CutoffBelow(cutoff, next) && next <= end
    requires PageRead(r, history[at], next, end)
    requires OnBranch(cutoff, history[t0]) && OnBranch(cutoff, history[|history| - 1])
    ensures PageHeld(r, cutoff, next, end, history, mark, at)
  {
    if cutoff.Some? {
      CutoffContinues(history, mark, t0, at, |history| - 1, cutoff.value, r.0);
    }
  }

  /** The page, then the cutoff once more; the end block was canonical at `at`, the cutoff is now. */
  method ReadThenCheck(node: Node, store: Store, cutoff: Option<Anchor>, next: nat, end: nat, limits: Limits)
    returns (r: Result<(Anchor, seq<Event>), Error>, ghost logs: seq<RawLog>, ghost at: nat)
    requires node.Valid() && Sound(store) && next <= end && (cutoff.Some? ==> RealAnchor(cutoff.value))
    modifies node`branch, node`history, node`answers, store
    ensures node.Valid() && old(node.history) <= node.history
    ensures Sound(store) && old(store.trace) <= store.trace && CoreOf(store.Now()) == old(CoreOf(store.Now()))
    ensures r.Ok? ==> |r.value.1| <= limits.maxDemands * 10
    ensures r.Ok? ==> && old(|node.history|) <= at < |node.history| && PageRead(r.value, node.history[at], next, end)
                      && OnBranch(cutoff, node.branch) && SameIdentities(r.value.1, logs)
    ensures node.calm ==> node.branch == old(node.branch) && store.Now() == old(store.Now())
    ensures node.calm && r.Ok? ==> logs == LogsBetween(node.branch, next, end) && r.value.0.blockHash <= node.branch
    ensures node.calm && CleanRange(node.branch, next, end, limits) && OnBranch(cutoff, node.branch) ==> r.Ok?
  {
    r, logs := ReadRows(node, store, next, end, limits);
    at := |node.history| - 1;
    if r.Ok? {
      ghost var seen := node.history;
      var after := StillOnCutoff(node, store, cutoff);
      assert node.history[at] == seen[at];
      if after.Err? { r := Err(after.error); }
    }
  }

  /** The cutoff is checked before and after the end block is read twice around the logs. */
  method HoldPage(node: Node, store: Store, cutoff: Option<Anchor>, next: nat, end: nat, limits: Limits)
    returns (r: Result<(Anchor, seq<Event>), Error>, ghost logs: seq<RawLog>, ghost at: nat)
    requires node.Valid() && Sound(store) && next <= end
    requires (cutoff.Some? ==> RealAnchor(cutoff.value)) && CutoffBelow(cutoff, next)
    modifies node`branch, node`history, node`answers, store
    ensures node.Valid() && Sound(store) && old(store.trace) <= store.trace &&
              CoreOf(store.Now()) == old(CoreOf(store.Now()))
    ensures r.Ok? ==> |r.value.1| <= limits.maxDemands * 10
    ensures r.Ok? ==>
              PageHeld(r.value, cutoff, next, end, node.history, node.mark, at) && SameIdentities(r.value.1, logs)
    ensures node.calm ==> node.branch == old(node.branch) && store.Now() == old(store.Now())
    ensures node.calm && r.Ok? ==> logs == LogsBetween(node.branch, next, end) && r.value.0.blockHash <= node.branch
    ensures node.calm && CleanRange(node.branch, next, end, limits) && OnBranch(cutoff, node.branch) ==> r.Ok?
  {
    logs, at := [], 0;
    var before := StillOnCutoff(node, store, cutoff);
    if before.Err? { return Err(before.error), logs, at; }
    ghost var seen := node.history;
    r, logs, at := ReadThenCheck(node, store, cutoff, next, end, limits);
    if r.Ok? {
      assert node.history[|seen| - 1] == seen[|seen| - 1];
      HeldTogether(r.value, cutoff, next, end, node.history, node.mark, |seen| - 1, at);
    }
  }

  /** One page. From its first call to the next page no abandoned branch is reinstated. */
  method ScanPage(node: Node, store: Store, cutoff: Option<Anchor>, next: nat, target: Anchor, limits: Limits)
    returns (r: Result<(Anchor, seq<Event>), Error>, ghost logs: seq<RawLog>, ghost at: nat)
    requires node.Valid() && Sound(store) && next <= target.blockNumber
    requires (cutoff.Some? ==> RealAnchor(cutoff.value)) && CutoffBelow(cutoff, next)
    modifies node, store
    ensures node.Valid() && Sound(store) && old(store.trace) <= store.trace &&
              CoreOf(store.Now()) == old(CoreOf(store.Now()))
    ensures r.Ok? ==> PageHeld(r.value, cutoff, next, PageEnd(next, target.blockNumber), node.history, node.mark, at)
    ensures r.Ok? ==> |r.value.1| <= limits.maxDemands * 10
    ensures r.Ok? ==>
              SameIdentities(r.value.1, logs) && (r.value.0.blockNumber == target.blockNumber ==> r.value.0 == target)
    ensures node.calm ==> node.branch == old(node.branch) && store.Now() == old(store.Now())
    ensures node.calm && r.Ok? ==>
              logs == LogsBetween(node.branch, next, r.value.0.blockNumber) && r.value.0.blockHash <= node.branch
    ensures node.calm && ClearPath(node.branch, cutoff, next, target, limits) ==> r.Ok?
  {
    logs, at := [], 0;
    node.BeginScan();
    var budget := Check(node.calm);
    if budget.Err? { return Err(budget.error), logs, at; }
    var end := PageEnd(next, target.blockNumber);
    r, logs, at := HoldPage(node, store, cutoff, next, end, limits);
    if r.Ok? {
      if node.calm && ClearPath(node.branch, cutoff, next, target, limits) && end == target.blockNumber {
        SameAnchor(node.branch, r.value.0, target);
      }
      if end == target.blockNumber && r.value.0 != target {
        r := Err(ReorgSeen);
      } else {
        budget := Check(node.calm);
        if budget.Err? { r := Err(budget.error); }
      }
    }
  }

  lemma SameAnchor(c: Branch, a: Anchor, b: Anchor)
    requires RealAnchor(a) && RealAnchor(b) && a.blockNumber == b.blockNumber && a.blockHash <= c && b.blockHash <= c
    ensures a == b
  {
  }

  /** The cutoff is still canonical. */
  method StillOnCutoff(node: Node, store: Store, cutoff: Option<Anchor>) returns (r: Result<(), Error>)
    requires node.Valid() && Sound(store) && (cutoff.Some? ==> RealAnchor(cutoff.value))
    modifies node`branch, node`history, node`answers, store
    ensures node.Valid() && old(node.history) <= node.history
    ensures Sound(store) && old(store.trace) <= store.trace && CoreOf(store.Now()) == old(CoreOf(store.Now()))
    ensures r.Ok? ==> OnBranch(cutoff, node.branch)
    ensures node.calm ==> node.branch == old(node.branch) && store.Now() == old(store.Now())
    ensures node.calm && OnBranch(cutoff, node.branch) ==> r.Ok?
  {
    if cutoff.None? { return Ok(()); }
    var canonical :- Pinned(node, store, cutoff.value);
    r := if canonical then Ok(()) else Err(ReorgSeen);
  }

  /** A calm branch on which this page cannot fail. */
  ghost predicate ClearPath(c: Branch, cutoff: Option<Anchor>, next: nat, target: Anchor, limits: Limits) {
    && CleanRange(c, next, PageEnd(next, target.blockNumber), limits)
    && RealAnchor(target) && target.blockHash <= c && OnBranch(cutoff, c)
  }
}
