/** The durable activity table: one state row and the event rows it covers.

    Every write is a transaction. Each is given twice: as a function from a database to the database
    after the transaction (Err means rolled back), and as the method that performs it. */
module ActivityStore {
  import opened Wrappers
  import opened Arithmetic
  import opened Sets
  import opened Chain

  const PAGE := 100
  const MAX_PAYLOAD := 8192
  const CREATED := "DemandCreated"

  datatype Anchor = Anchor(blockNumber: nat, blockHash: Hash, timestamp: nat)

  datatype Coverage = Complete | Partial | Unavailable

  datatype Reason = NotInitialized | UnverifiedCheckpoint | BackfillIncomplete | ReorgRebuild
                  | RpcUnavailable | Capacity | InvalidLog | CoverageMismatch

  datatype Reorg = Unchecked | Clear | Detected | Rebuilding

  datatype State = State(chainId: nat, contract: nat, deployBlock: nat, nextBlock: nat,
                         startAnchor: Option<Anchor>, cutoff: Option<Anchor>, target: Option<Anchor>,
                         coverage: Coverage, reason: Option<Reason>, lastValidatedAt: Option<nat>,
                         reorg: Reorg, lastDetectedAt: Option<nat>)

  /** The primary key of an event row, within the one deployment of the table. */
  datatype Identity = Identity(txHash: nat, logIndex: nat)

  datatype Event = Event(txHash: nat, logIndex: nat, blockNumber: nat, blockHash: Hash, txIndex: nat,
                         timestamp: nat, name: string, demandId: Option<nat>, payload: string)

  function IdentityOf(e: Event): Identity {
    Identity(e.txHash, e.logIndex)
  }

  datatype Db = Db(state: State, events: map<Identity, Event>)

  datatype Error = DeploymentMismatch | ChainMismatch | ReorgSeen | EventConflict | CheckpointConflict
                 | StateInvalid | LogInvalid | OverCapacity | OverBudget | RpcFailed | StorageUnavailable

  // ---------------------------------------------------------------- validation

  predicate AnchorValid(a: Option<Anchor>) {
    a.Some? ==> a.value.blockNumber < TWO64 && a.value.timestamp < TWO64
  }

  predicate CompleteValid(s: State) {
    && s.startAnchor.Some? && s.cutoff.Some? && s.target == s.cutoff && s.reason.None? && s.reorg == Clear
  }

  predicate ValidState(s: State) {
    && s.deployBlock <= s.nextBlock < TWO64
    && AnchorValid(s.startAnchor) && AnchorValid(s.cutoff) && AnchorValid(s.target)
    && (s.startAnchor.Some? ==> s.startAnchor.value.blockNumber == s.deployBlock)
    && (s.cutoff.Some? ==> s.cutoff.value.blockNumber + 1 == s.nextBlock)
    && (s.target.Some? ==> s.deployBlock <= s.target.value.blockNumber)
    && (s.coverage == Complete ==> CompleteValid(s))
    && (s.coverage != Complete ==> s.reason.Some?)
  }

  predicate ValidEvent(e: Event) {
    && e.logIndex < TWO64 && e.blockNumber < TWO64 && e.txIndex < TWO64 && e.timestamp < TWO64
    && (e.demandId.Some? ==> 0 < e.demandId.value < TWO256)
    && |e.payload| <= MAX_PAYLOAD
  }

  // ---------------------------------------------------------------- transactions

  predicate FixedPart(s: State, next: State) {
    && next.chainId == s.chainId && next.contract == s.contract && next.deployBlock == s.deployBlock
    && next.nextBlock == s.nextBlock && next.cutoff == s.cutoff
    && (s.startAnchor.Some? ==> next.startAnchor == s.startAnchor)
  }

  /** `next` is what the caller's update makes of the current row, or the error it throws. */
  function UpdatedState(db: Db, expected: nat, next: Result<State, Error>): Result<Db, Error> {
    if db.state.nextBlock != expected then Err(CheckpointConflict)
    else if next.Err? then Err(next.error)
    else if !FixedPart(db.state, next.value) || !ValidState(next.value) then Err(StateInvalid)
    else Ok(db.(state := next.value))
  }

  function ResetState(s: State, at: nat): State {
    s.(nextBlock := s.deployBlock, startAnchor := None, cutoff := None, target := None, coverage := Unavailable,
       reason := Some(ReorgRebuild), lastValidatedAt := None, reorg := Rebuilding, lastDetectedAt := Some(at))
  }

  function Reset(db: Db, at: nat): Db {
    Db(ResetState(db.state, at), map[])
  }

  /** Opening a database that already has a state row. */
  function Reopened(db: Db): (r: Db)
    ensures r.state.reorg == match db.state.reorg
                             case Detected => Detected
                             case Rebuilding => Rebuilding
                             case _ => Unchecked
    ensures r.events == db.events && r.state.cutoff == db.state.cutoff && r.state.target == db.state.target
    ensures r.state.coverage == Unavailable && r.state.reason == Some(UnverifiedCheckpoint)
  {
    db.(state := db.state.(coverage := Unavailable, reason := Some(UnverifiedCheckpoint), lastValidatedAt := None,
        reorg := if db.state.reorg == Detected || db.state.reorg == Rebuilding then db.state.reorg else Unchecked))
  }

  function Created(chainId: nat, contract: nat, deployBlock: nat): Db {
    Db(State(chainId, contract, deployBlock, deployBlock, None, None, None, Unavailable, Some(NotInitialized), None,
             Unchecked, None), map[])
  }

  predicate Fits(e: Event, from: nat, upTo: nat) {
    from <= e.blockNumber <= upTo
  }

  /** Inserts the page's events in order; a row that is already there must be equal in every field. */
  function Inserted(rows: map<Identity, Event>, page: seq<Event>, from: nat, upTo: nat, maxEvents: nat)
    : Result<map<Identity, Event>, Error>
    decreases |page|
  {
    if page == [] then Ok(rows)
    else
      var e := page[0];
      if !ValidEvent(e) || !Fits(e, from, upTo) then Err(LogInvalid)
      else if IdentityOf(e) in rows then
        if rows[IdentityOf(e)] != e then Err(EventConflict)
        else Inserted(rows, page[1..], from, upTo, maxEvents)
      else if |rows| + 1 > maxEvents then Err(OverCapacity)
      else Inserted(rows[IdentityOf(e) := e], page[1..], from, upTo, maxEvents)
  }

  /** The stored rows of the blocks from..upTo. */
  function Slice(rows: map<Identity, Event>, from: nat, upTo: nat): map<Identity, Event> {
    map k | k in rows && Fits(rows[k], from, upTo) :: rows[k]
  }

  /** Checks a replayed page row by row; the identities seen so far are in `seen`. */
  function Replayed(stored: map<Identity, Event>, page: seq<Event>, seen: set<Identity>): Result<set<Identity>, Error> {
    if page == [] then Ok(seen)
    else
      var e := page[0];
      if !ValidEvent(e) then Err(LogInvalid)
      else if IdentityOf(e) !in stored || stored[IdentityOf(e)] != e then Err(EventConflict)
      else Replayed(stored, page[1..], seen + {IdentityOf(e)})
  }

  predicate ReplayShape(s: State, expected: nat, end: Anchor) {
    && expected < TWO64 && AnchorValid(Some(end)) && s.cutoff == Some(end)
    && expected <= end.blockNumber && end.blockNumber - expected < PAGE
  }

  predicate PageShape(s: State, end: Anchor) {
    && AnchorValid(Some(end)) && s.nextBlock <= end.blockNumber && end.blockNumber - s.nextBlock < PAGE
    && s.target.Some? && end.blockNumber <= s.target.value.blockNumber
  }

  function Advanced(s: State, end: Anchor): State {
    s.(nextBlock := end.blockNumber + 1, cutoff := Some(end), coverage := Partial,
       reason := Some(if s.reorg == Rebuilding then ReorgRebuild else BackfillIncomplete), lastValidatedAt := None)
  }

  function Committed(db: Db, expected: nat, end: Anchor, page: seq<Event>, maxEvents: nat): Result<Db, Error> {
    if db.state.reorg == Detected then Err(ReorgSeen)
    else if db.state.nextBlock != expected then
      if !ReplayShape(db.state, expected, end) then Err(CheckpointConflict)
      else
        var stored := Slice(db.events, expected, end.blockNumber);
        var seen :- Replayed(stored, page, {});
        if |seen| != |stored| then Err(EventConflict) else Ok(db)
    else if !PageShape(db.state, end) then Err(StateInvalid)
    else
      var rows :- Inserted(db.events, page, expected, end.blockNumber, maxEvents);
      if !ValidState(Advanced(db.state, end)) then Err(StateInvalid)
      else Ok(Db(Advanced(db.state, end), rows))
  }

  // ---------------------------------------------------------------- what the transactions keep

  /** The table's own invariant, whatever the chain does. */
  predicate Consistent(db: Db, maxEvents: nat) {
    && ValidState(db.state)
    && (forall k | k in db.events :: IdentityOf(db.events[k]) == k && ValidEvent(db.events[k]) &&
                                     db.state.deployBlock <= db.events[k].blockNumber < db.state.nextBlock)
    && |db.events| <= maxEvents
  }

  lemma {:induction false} InsertedRows(rows: map<Identity, Event>, page: seq<Event>, from: nat, upTo: nat,
                                        maxEvents: nat)
    requires Inserted(rows, page, from, upTo, maxEvents).Ok?
    requires |rows| <= maxEvents
    ensures var after := Inserted(rows, page, from, upTo, maxEvents).value;
            && |after| <= maxEvents
            && (forall k | k in rows :: k in after && after[k] == rows[k])
            && (forall e | e in page :: IdentityOf(e) in after && after[IdentityOf(e)] == e &&
                                        ValidEvent(e) && Fits(e, from, upTo))
            && (forall k | k in after :: k in rows || (after[k] in page && IdentityOf(after[k]) == k))
    decreases |page|
  {
    if page != [] {
      var e := page[0];
      var next := if IdentityOf(e) in rows then rows else rows[IdentityOf(e) := e];
      InsertedRows(next, page[1..], from, upTo, maxEvents);
      assert IdentityOf(e) in next;
      assert forall x | x in page :: x == e || x in page[1..];
    }
  }

  ghost predicate Below64(a: Option<Anchor>) {
    a.Some? ==> a.value.blockNumber <= TWO64 - 1 && a.value.timestamp <= TWO64 - 1
  }

  /** What a stored state says: where its anchors are, what complete claims, and that everything else has a reason. */
  ghost predicate StateInOrder(s: State) {
    && s.deployBlock <= s.nextBlock <= TWO64 - 1
    && Below64(s.startAnchor) && Below64(s.cutoff) && Below64(s.target)
    && (s.startAnchor.Some? ==> s.startAnchor.value.blockNumber == s.deployBlock)
    && (s.cutoff.Some? ==> s.cutoff.value.blockNumber == s.nextBlock - 1)
    && (s.target.Some? ==> s.target.value.blockNumber >= s.deployBlock)
    && if s.coverage == Complete
       then s.startAnchor.Some? && s.cutoff.Some? && s.cutoff == s.target && s.reason == None && s.reorg == Clear
       else s.reason != None
  }

  /** Every number of the event has 64 bits, its demand id 256 bits and is not zero, its payload 8192 bytes. */
  ghost predicate EventInOrder(e: Event) {
    && e.logIndex <= TWO64 - 1 && e.blockNumber <= TWO64 - 1 && e.txIndex <= TWO64 - 1 && e.timestamp <= TWO64 - 1
    && (match e.demandId case None => true case Some(id) => 1 <= id <= TWO256 - 1)
    && |e.payload| <= 8192
  }

  /** The checks let through exactly what is in order. */
  lemma ChecksAre(s: State, e: Event)
    ensures ValidState(s) <==> StateInOrder(s)
    ensures ValidEvent(e) <==> EventInOrder(e)
  {
  }

  /** What an accepted update can have changed: not the deployment, not the rows' range, not a recorded first block. */
  lemma UpdateMeans(db: Db, expected: nat, next: Result<State, Error>)
    requires UpdatedState(db, expected, next).Ok?
    ensures var s, s' := db.state, UpdatedState(db, expected, next).value.state;
            && s.nextBlock == expected == s'.nextBlock && s'.cutoff == s.cutoff
            && s'.chainId == s.chainId && s'.contract == s.contract && s'.deployBlock == s.deployBlock
            && (s.startAnchor != None ==> s'.startAnchor == s.startAnchor) && ValidState(s')
    ensures UpdatedState(db, expected, next).value.events == db.events
  {
  }

  /** What an accepted page means: at most 100 blocks, none beyond the target, each event within them; the state
      afterwards, every column of it. */
  lemma PageMeans(db: Db, expected: nat, end: Anchor, page: seq<Event>, maxEvents: nat)
    requires Committed(db, expected, end, page, maxEvents).Ok? && db.state.nextBlock == expected
    requires |db.events| <= maxEvents
    ensures expected <= end.blockNumber <= expected + 99
    ensures db.state.reorg != Detected && db.state.target.Some? &&
              end.blockNumber <= db.state.target.value.blockNumber
    ensures var s, s' := db.state, Committed(db, expected, end, page, maxEvents).value.state;
            && s'.nextBlock == end.blockNumber + 1 && s'.cutoff == Some(end) && s'.coverage == Partial
            && s'.reason == (match s.reorg case Rebuilding => Some(ReorgRebuild) case _ => Some(BackfillIncomplete))
            && s'.lastValidatedAt == None && s'.reorg == s.reorg && s'.lastDetectedAt == s.lastDetectedAt
            && s'.target == s.target && s'.startAnchor == s.startAnchor && s'.deployBlock == s.deployBlock
            && s'.chainId == s.chainId && s'.contract == s.contract
    ensures forall e | e in page :: EventInOrder(e) && expected <= e.blockNumber && e.blockNumber <= end.blockNumber
  {
    InsertedRows(db.events, page, expected, end.blockNumber, maxEvents);
  }

  /** A page that does not start at the next block is accepted only if it ends in the cutoff and spans at most 100
      blocks. */
  lemma ReplayMeans(db: Db, expected: nat, end: Anchor, page: seq<Event>, maxEvents: nat)
    requires Committed(db, expected, end, page, maxEvents).Ok? && db.state.nextBlock != expected
    ensures db.state.cutoff == Some(end) && expected <= end.blockNumber <= expected + 99
    ensures Below64(Some(end)) && expected <= TWO64 - 1
  {
  }

  lemma CommittedConsistent(db: Db, expected: nat, end: Anchor, page: seq<Event>, maxEvents: nat)
    requires Consistent(db, maxEvents)
    requires Committed(db, expected, end, page, maxEvents).Ok?
    ensures Consistent(Committed(db, expected, end, page, maxEvents).value, maxEvents)
  {
    if db.state.nextBlock == expected {
      InsertedRows(db.events, page, expected, end.blockNumber, maxEvents);
    }
  }

  /** A row that fails the page's checks stops the whole page. */
  lemma {:induction false} InsertedSucceeds(rows: map<Identity, Event>, page: seq<Event>, from: nat, upTo: nat,
                                            maxEvents: nat)
    requires forall e | e in page :: ValidEvent(e) && Fits(e, from, upTo) && IdentityOf(e) !in rows
    requires forall i, j | 0 <= i < j < |page| :: IdentityOf(page[i]) != IdentityOf(page[j])
    requires |rows| + |page| <= maxEvents
    ensures Inserted(rows, page, from, upTo, maxEvents).Ok?
    ensures |Inserted(rows, page, from, upTo, maxEvents).value| == |rows| + |page|
    decreases |page|
  {
    if page != [] {
      var e := page[0];
      assert e in page;
      assert forall x | x in page[1..] :: x in page;
      assert forall i | 0 <= i < |page[1..]| :: page[1..][i] == page[i + 1];
      InsertedSucceeds(rows[IdentityOf(e) := e], page[1..], from, upTo, maxEvents);
    }
  }

  lemma {:induction false} ReplayedRows(stored: map<Identity, Event>, page: seq<Event>, seen: set<Identity>)
    requires forall k | k in stored :: IdentityOf(stored[k]) == k && ValidEvent(stored[k])
    ensures Replayed(stored, page, seen).Ok? <==>
              (forall e | e in page :: IdentityOf(e) in stored && stored[IdentityOf(e)] == e)
    ensures Replayed(stored, page, seen).Ok? ==>
              Replayed(stored, page, seen).value == seen + (set e | e in page :: IdentityOf(e))
  {
    if page != [] {
      var e := page[0];
      ReplayedRows(stored, page[1..], seen + {IdentityOf(e)});
      assert e in page;
      assert forall x | x in page :: x == e || x in page[1..];
      assert forall x | x in page[1..] :: x in page;
    }
  }

  /** A page sent again, ending at the cutoff, is accepted exactly when its distinct events are the stored slice;
      and it then changes nothing. */
  lemma ReplayAcceptedIff(db: Db, expected: nat, end: Anchor, page: seq<Event>, maxEvents: nat)
    requires Consistent(db, maxEvents)
    requires db.state.nextBlock != expected && db.state.reorg != Detected && ReplayShape(db.state, expected, end)
    ensures Committed(db, expected, end, page, maxEvents).Ok? <==>
              (set e | e in page) == Slice(db.events, expected, end.blockNumber).Values
    ensures Committed(db, expected, end, page, maxEvents).Ok? ==>
              Committed(db, expected, end, page, maxEvents).value == db
  {
    var stored := Slice(db.events, expected, end.blockNumber);
    var rows := set e | e in page;
    var keys := set e | e in page :: IdentityOf(e);
    ReplayedRows(stored, page, {});
    if Committed(db, expected, end, page, maxEvents).Ok? {
      assert forall e | e in page :: IdentityOf(e) in stored && stored[IdentityOf(e)] == e;
      assert keys <= stored.Keys;
      assert |keys| == |stored| == |stored.Keys|;
      SameSize(keys, stored.Keys);
      forall v | v in stored.Values ensures v in rows {
        var k :| k in stored && stored[k] == v;
        assert k in keys;
      }
      forall v | v in rows ensures v in stored.Values {
        assert stored[IdentityOf(v)] == v;
      }
    }
    if rows == stored.Values {
      forall e | e in page ensures IdentityOf(e) in stored && stored[IdentityOf(e)] == e {
        assert e in rows;
        var k :| k in stored && stored[k] == e;
      }
      forall k | k in stored ensures k in keys {
        assert stored[k] in stored.Values;
        assert stored[k] in rows;
      }
      assert keys == stored.Keys;
    }
  }

  // ---------------------------------------------------------------- the store

  /** Chain order of two rows: block, then transaction, then log. */
  predicate Precedes(a: Event, b: Event) {
    || a.blockNumber < b.blockNumber
    || (a.blockNumber == b.blockNumber && a.txIndex < b.txIndex)
    || (a.blockNumber == b.blockNumber && a.txIndex == b.txIndex && a.logIndex <= b.logIndex)
  }

  predicate Ordered(rows: seq<Event>) {
    forall i, j | 0 <= i < j < |rows| :: Precedes(rows[i], rows[j])
  }

  /** `rows` lists the table, each row once. */
  ghost predicate Lists(rows: seq<Event>, table: map<Identity, Event>) {
    && |rows| == |table|
    && (forall e | e in rows :: IdentityOf(e) in table && table[IdentityOf(e)] == e)
    && (forall k | k in table :: table[k] in rows)
    && (forall i, j | 0 <= i < j < |rows| :: IdentityOf(rows[i]) != IdentityOf(rows[j]))
  }

  /** Puts one row into an ordered listing. */
  method Place(rows: seq<Event>, e: Event) returns (placed: seq<Event>)
    requires Ordered(rows)
    ensures Ordered(placed)
    ensures exists p | 0 <= p <= |rows| :: placed == rows[..p] + [e] + rows[p..]
  {
    var p := |rows|;
    while p > 0 && !Precedes(rows[p - 1], e)
      invariant 0 <= p <= |rows|
      invariant forall i | p <= i < |rows| :: Precedes(e, rows[i])
    {
      p := p - 1;
    }
    placed := rows[..p] + [e] + rows[p..];
    forall i | 0 <= i < p ensures Precedes(rows[i], e) {
      assert i == p - 1 || Precedes(rows[i], rows[p - 1]);
    }
  }

  /** Row i of the listing with e put in at p. */
  lemma PlacedAt(rows: seq<Event>, e: Event, p: nat)
    requires p <= |rows|
    ensures var placed := rows[..p] + [e] + rows[p..];
            && |placed| == |rows| + 1 && e in placed && (forall x | x in rows :: x in placed)
            && forall i | 0 <= i < |placed| :: placed[i] == if i < p then rows[i] else if i == p then e else rows[i - 1]
  {
    var placed := rows[..p] + [e] + rows[p..];
    assert placed[p] == e;
    forall x | x in rows ensures x in placed {
      var i :| 0 <= i < |rows| && rows[i] == x;
      assert placed[if i < p then i else i + 1] == x;
    }
  }

  lemma PlacedApart(rows: seq<Event>, table: map<Identity, Event>, e: Event, p: nat, i: nat, j: nat)
    requires Lists(rows, table) && IdentityOf(e) !in table && p <= |rows| && i < j <= |rows|
    ensures IdentityOf((rows[..p] + [e] + rows[p..])[i]) != IdentityOf((rows[..p] + [e] + rows[p..])[j])
  {
    PlacedAt(rows, e, p);
    assert i < p ==> rows[i] in rows;
    assert i > p ==> rows[i - 1] in rows;
    assert j < p ==> rows[j] in rows;
    assert j > p ==> rows[j - 1] in rows;
  }

  lemma Listed(rows: seq<Event>, table: map<Identity, Event>, e: Event, p: nat)
    requires Lists(rows, table) && IdentityOf(e) !in table && p <= |rows|
    ensures Lists(rows[..p] + [e] + rows[p..], table[IdentityOf(e) := e])
  {
    var placed := rows[..p] + [e] + rows[p..];
    var after := table[IdentityOf(e) := e];
    PlacedAt(rows, e, p);
    forall x | x in placed ensures IdentityOf(x) in after && after[IdentityOf(x)] == x {
      assert x == e || x in rows;
    }
    forall k | k in after ensures after[k] in placed {
      if k != IdentityOf(e) { assert table[k] in rows; }
    }
    forall i, j | 0 <= i < j < |placed| ensures IdentityOf(placed[i]) != IdentityOf(placed[j]) {
      PlacedApart(rows, table, e, p, i, j);
    }
  }

  method PlaceRow(rows: seq<Event>, ghost table: map<Identity, Event>, e: Event) returns (placed: seq<Event>)
    requires Ordered(rows) && Lists(rows, table) && IdentityOf(e) !in table
    ensures Ordered(placed) && Lists(placed, table[IdentityOf(e) := e])
  {
    placed := Place(rows, e);
    ghost var p :| 0 <= p <= |rows| && placed == rows[..p] + [e] + rows[p..];
    Listed(rows, table, e, p);
  }

  lemma OneLess(table: map<Identity, Event>, left: set<Identity>, k: Identity)
    requires left <= table.Keys && k in left
    ensures table - (left - {k}) == (table - left)[k := table[k]]
  {
  }

  lemma NothingLeft(table: map<Identity, Event>)
    ensures table - table.Keys == map[] && table - {} == table
  {
  }

  method Listing(table: map<Identity, Event>) returns (rows: seq<Event>)
    requires forall k | k in table :: IdentityOf(table[k]) == k
    ensures Ordered(rows) && Lists(rows, table)
  {
    rows := [];
    var left := table.Keys;
    NothingLeft(table);
    while left != {}
      invariant left <= table.Keys
      invariant Ordered(rows) && Lists(rows, table - left)
      decreases left
    {
      var k :| k in left;
      OneLess(table, left, k);
      rows := PlaceRow(rows, table - left, table[k]);
      left := left - {k};
    }
  }

  class Store {
    var state: State
    var events: map<Identity, Event>
    const maxEvents: nat
    /** The chain of the deployment this store was opened for. */
    const chainId: nat
    /** The database after every transaction so far: what a process that stops at any point leaves behind. */
    var trace: seq<Db>

    function Now(): Db
      reads this
    {
      Db(state, events)
    }

    ghost predicate Valid()
      reads this
    {
      && Consistent(Now(), maxEvents) && state.chainId == chainId
      && |trace| > 0 && trace[|trace| - 1] == Now()
    }

    constructor Create(chainId: nat, contract: nat, deployBlock: nat, maxEvents: nat)
      requires deployBlock < TWO64
      ensures Valid() && Now() == Created(chainId, contract, deployBlock) && trace == [Now()]
      ensures this.maxEvents == maxEvents && this.chainId == chainId
    {
      this.maxEvents := maxEvents;
      this.chainId := chainId;
      state := Created(chainId, contract, deployBlock).state;
      events := map[];
      new;
      trace := [Now()];
    }

    /** A process opening the database that another one left in `left`. */
    constructor Open(left: Db, chainId: nat, maxEvents: nat)
      requires Consistent(left, maxEvents) && left.state.chainId == chainId
      ensures Valid() && Now() == Reopened(left) && trace == [Now()]
      ensures this.maxEvents == maxEvents && this.chainId == chainId
    {
      this.maxEvents := maxEvents;
      this.chainId := chainId;
      state := Reopened(left).state;
      events := left.events;
      new;
      trace := [Now()];
    }

    method UpdateState(expected: nat, update: State -> Result<State, Error>) returns (r: Result<State, Error>)
      requires Valid()
      modifies this
      ensures Valid()
      ensures var after := UpdatedState(old(Now()), expected, update(old(state)));
              if after.Ok? then r == Ok(state) && Now() == after.value && trace == old(trace) + [Now()]
              else r == Err(after.error) && Now() == old(Now()) && trace == old(trace)
    {
      if state.nextBlock != expected { return Err(CheckpointConflict); }
      var next :- update(state);
      if !FixedPart(state, next) || !ValidState(next) { return Err(StateInvalid); }
      state := next;
      trace := trace + [Now()];
      return Ok(state);
    }

    method CommitPage(expected: nat, end: Anchor, page: seq<Event>) returns (r: Result<State, Error>)
      requires Valid()
      modifies this
      ensures Valid()
      ensures var after := Committed(old(Now()), expected, end, page, maxEvents);
              if after.Ok? then r == Ok(state) && Now() == after.value && trace == old(trace) + [Now()]
              else r == Err(after.error) && Now() == old(Now()) && trace == old(trace)
    {
      if state.reorg == Detected { return Err(ReorgSeen); }
      if state.nextBlock != expected {
        if !ReplayShape(state, expected, end) { return Err(CheckpointConflict); }
        var verdict := CheckReplay(expected, end, page);
        if verdict.Err? { return Err(verdict.error); }
        trace := trace + [Now()];
        return Ok(state);
      }
      if !PageShape(state, end) { return Err(StateInvalid); }
      var rows := events;
      for i := 0 to |page|
        invariant Inserted(events, page, expected, end.blockNumber, maxEvents) ==
                  Inserted(rows, page[i..], expected, end.blockNumber, maxEvents)
        invariant Now() == old(Now()) && trace == old(trace) && Valid()
      {
        var e := page[i];
        assert page[i..][0] == e && page[i..][1..] == page[i + 1..];
        if !ValidEvent(e) || !Fits(e, expected, end.blockNumber) { return Err(LogInvalid); }
        if IdentityOf(e) in rows {
          if rows[IdentityOf(e)] != e { return Err(EventConflict); }
        } else {
          if |rows| + 1 > maxEvents { return Err(OverCapacity); }
          rows := rows[IdentityOf(e) := e];
        }
      }
      var next := Advanced(state, end);
      if !ValidState(next) { return Err(StateInvalid); }
      CommittedConsistent(Now(), expected, end, page, maxEvents);
      state, events := next, rows;
      trace := trace + [Now()];
      return Ok(state);
    }

    method CheckReplay(expected: nat, end: Anchor, page: seq<Event>) returns (r: Result<set<Identity>, Error>)
      requires Valid()
      ensures var stored := Slice(events, expected, end.blockNumber);
              var seen := Replayed(stored, page, {});
              r == if seen.Err? then seen else if |seen.value| != |stored| then Err(EventConflict) else seen
    {
      var stored := Slice(events, expected, end.blockNumber);
      var identities: set<Identity> := {};
      for i := 0 to |page|
        invariant Replayed(stored, page, {}) == Replayed(stored, page[i..], identities)
      {
        var e := page[i];
        assert page[i..][0] == e && page[i..][1..] == page[i + 1..];
        if !ValidEvent(e) { return Err(LogInvalid); }
        if IdentityOf(e) !in stored || stored[IdentityOf(e)] != e { return Err(EventConflict); }
        identities := identities + {IdentityOf(e)};
      }
      r := if |identities| != |stored| then Err(EventConflict) else Ok(identities);
    }

    method ResetForReorg(at: nat)
      requires Valid()
      modifies this
      ensures Valid() && Now() == Reset(old(Now()), at) && trace == old(trace) + [Now()]
    {
      state, events := ResetState(state, at), map[];
      trace := trace + [Now()];
    }

    /** Another process opens the same database. */
    method Reopen()
      requires Valid()
      modifies this
      ensures Valid() && Now() == Reopened(old(Now())) && trace == old(trace) + [Now()]
    {
      state := Reopened(Db(state, events)).state;
      trace := trace + [Now()];
    }

    /** All rows in chain order. */
    method Events() returns (rows: seq<Event>)
      requires Valid()
      ensures Ordered(rows) && Lists(rows, events)
    {
      rows := Listing(events);
    }
  }

  /** The rows fit their state and the limit. */
  predicate RowsFit(db: Db, maxEvents: nat) {
    && |db.events| <= maxEvents
    && forall k | k in db.events ::
         ValidEvent(db.events[k]) && db.state.deployBlock <= db.events[k].blockNumber < db.state.nextBlock
  }

  predicate Deployed(s: State, chainId: nat, contract: nat, deployBlock: nat) {
    s.chainId == chainId && s.contract == contract && s.deployBlock == deployBlock
  }

  /** The rows lie under their primary key. */
  ghost predicate KeyedRows(rows: map<Identity, Event>) {
    forall k | k in rows :: IdentityOf(rows[k]) == k
  }

  /** Opens an existing table: its state must be valid, its deployment ours, its rows in place. */
  method OpenTable(left: Db, chainId: nat, contract: nat, deployBlock: nat, maxEvents: nat)
    returns (r: Result<Store, Error>)
    requires KeyedRows(left.events)
    ensures r.Ok? <==>
              ValidState(left.state) && Deployed(left.state, chainId, contract, deployBlock) && RowsFit(left, maxEvents)
    ensures r == Err(DeploymentMismatch) <==>
              ValidState(left.state) && !Deployed(left.state, chainId, contract, deployBlock)
    ensures r.Err? ==> r.error == DeploymentMismatch || r.error == StorageUnavailable
    ensures r.Ok? ==>
              && fresh(r.value) && r.value.Valid() && r.value.Now() == Reopened(left)
              && r.value.trace == [r.value.Now()]
                      && r.value.maxEvents == maxEvents && r.value.chainId == chainId
  {
    if !ValidState(left.state) { return Err(StorageUnavailable); }
    if !Deployed(left.state, chainId, contract, deployBlock) { return Err(DeploymentMismatch); }
    if !RowsFit(left, maxEvents) { return Err(StorageUnavailable); }
    var store := new Store.Open(left, chainId, maxEvents);
    r := Ok(store);
  }
}
