/** What the activity table means: the rows are the contract's logs of one branch, from the deploy block
    to the cutoff, and nothing else. */
module ActivityCoverage {
  import opened Wrappers
  import opened Sets
  import opened Chain
  import opened ActivityStore

  /** The row of log l in the block whose hash is h. */
  function RowOf(h: Hash, l: Log): Event
    requires |h| > 0
  {
    Event(l.txHash, l.logIndex, |h| - 1, h, l.txIndex, h[|h| - 1].timestamp, l.name, l.demandId, l.payload)
  }

  ghost predicate RealAnchor(a: Anchor) {
    |a.blockHash| == a.blockNumber + 1 && a.timestamp == a.blockHash[a.blockNumber].timestamp
  }

  ghost predicate LogAt(h: Hash, n: nat, l: Log) {
    n < |h| && l in h[n].logs
  }

  /** e is the row of some log of block n of h. */
  ghost predicate RowAt(e: Event, h: Hash, n: nat) {
    exists l :: LogAt(h, n, l) && l.strict && e == RowOf(h[..n + 1], l)
  }

  /** Log l of block n has its row. */
  ghost predicate Covered(rows: map<Identity, Event>, h: Hash, n: nat, l: Log)
    requires n < |h|
  {
    l.strict && Identity(l.txHash, l.logIndex) in rows && rows[Identity(l.txHash, l.logIndex)] == RowOf(h[..n + 1], l)
  }

  /** e is the row of a log of a block from..|h| - 1. */
  ghost predicate Belongs(e: Event, h: Hash, from: nat) {
    from <= e.blockNumber < |h| && RowAt(e, h, e.blockNumber)
  }

  /** The rows are exactly the contract's logs of the blocks from..|h| - 1 of the chain that h names. */
  ghost predicate Exact(rows: map<Identity, Event>, h: Hash, from: nat) {
    && (forall n, l {:trigger Covered(rows, h, n, l)} | from <= n && LogAt(h, n, l) :: Covered(rows, h, n, l))
    && (forall k {:trigger Belongs(rows[k], h, from)} | k in rows :: Belongs(rows[k], h, from))
  }

  ghost predicate InPage(page: seq<Event>, h: Hash, n: nat, l: Log)
    requires n < |h|
  {
    l.strict && RowOf(h[..n + 1], l) in page
  }

  /** The same for the page of the blocks from..|h| - 1. */
  ghost predicate PageExact(page: seq<Event>, h: Hash, from: nat) {
    && (forall n, l {:trigger InPage(page, h, n, l)} | from <= n && LogAt(h, n, l) :: InPage(page, h, n, l))
    && (forall e {:trigger Belongs(e, h, from)} | e in page :: Belongs(e, h, from))
  }

  ghost predicate IsCreation(rows: map<Identity, Event>, k: Identity, id: nat) {
    k in rows && rows[k].name == CREATED && rows[k].demandId == Some(id)
  }

  ghost predicate HasCreation(rows: map<Identity, Event>, id: nat) {
    exists k :: IsCreation(rows, k, id)
  }

  /** The creations cover the ids 1..count, each once, and no other id. */
  ghost predicate CreationsAre(rows: map<Identity, Event>, count: nat) {
    && (forall k | k in rows && rows[k].name == CREATED ::
          rows[k].demandId.Some? && 1 <= rows[k].demandId.value <= count)
    && (forall id | 1 <= id <= count :: HasCreation(rows, id))
    && (forall k, k', id | IsCreation(rows, k, id) && IsCreation(rows, k', id) :: k == k')
  }

  /** What "complete" promises: the first block and the creations belong to the branch of the cutoff. */
  ghost predicate CompleteMeans(db: Db) {
    && db.state.startAnchor.Some? && db.state.cutoff.Some?
    && var h := db.state.cutoff.value.blockHash;
    && |h| > 0 && db.state.startAnchor.value.blockHash <= h
    && CreationsAre(db.events, |h[|h| - 1].demands|)
  }

  /** The invariant of the stored history. */
  ghost predicate Faithful(db: Db) {
    && (db.state.startAnchor.Some? ==> RealAnchor(db.state.startAnchor.value))
    && (db.state.target.Some? ==> RealAnchor(db.state.target.value))
    && (db.state.cutoff.None? ==> db.events == map[] && db.state.nextBlock == db.state.deployBlock)
    && (db.state.cutoff.Some? ==>
          && RealAnchor(db.state.cutoff.value)
          && Exact(db.events, db.state.cutoff.value.blockHash, db.state.deployBlock)
          && db.state.target.Some? && db.state.cutoff.value.blockNumber <= db.state.target.value.blockNumber)
    && (db.state.coverage == Complete ==> CompleteMeans(db))
  }

  // ---------------------------------------------------------------- transactions keep it

  lemma CreatedFaithful(chainId: nat, contract: nat, deployBlock: nat)
    ensures Faithful(Created(chainId, contract, deployBlock))
  {
  }

  lemma ResetFaithful(db: Db, at: nat)
    ensures Faithful(Reset(db, at))
  {
  }

  lemma ReopenedFaithful(db: Db)
    requires Faithful(db)
    ensures Faithful(Reopened(db))
  {
  }

  /** A row of an ancestor is a row of the descendant. */
  lemma BelongsBelow(e: Event, h: Hash, h': Hash, from: nat)
    requires Belongs(e, h, from) && h <= h'
    ensures Belongs(e, h', from)
  {
    var n := e.blockNumber;
    var l :| LogAt(h, n, l) && l.strict && e == RowOf(h[..n + 1], l);
    assert h[..n + 1] == h'[..n + 1] && LogAt(h', n, l);
  }

  /** Log n of the descendant was covered already, or the page brings it. */
  lemma CoveredAfter(rows: map<Identity, Event>, after: map<Identity, Event>, page: seq<Event>, h: Hash, h': Hash,
                     deploy: nat, n: nat, l: Log)
    requires h <= h' && deploy <= n && LogAt(h', n, l)
    requires Exact(rows, h, deploy) && PageExact(page, h', |h|)
    requires forall k | k in rows :: k in after && after[k] == rows[k]
    requires forall e | e in page :: IdentityOf(e) in after && after[IdentityOf(e)] == e
    ensures Covered(after, h', n, l)
  {
    if n < |h| {
      assert h[..n + 1] == h'[..n + 1] && LogAt(h, n, l);
      assert Covered(rows, h, n, l);
    } else {
      assert InPage(page, h', n, l);
    }
  }

  /** A page of the next blocks of a descendant of the cutoff extends the covered range. */
  lemma ExactExtended(rows: map<Identity, Event>, after: map<Identity, Event>, page: seq<Event>, h: Hash, h': Hash,
                      deploy: nat)
    requires h <= h' && deploy <= |h|
    requires Exact(rows, h, deploy) && PageExact(page, h', |h|)
    requires forall k | k in rows :: k in after && after[k] == rows[k]
    requires forall e | e in page :: IdentityOf(e) in after && after[IdentityOf(e)] == e
    requires forall k | k in after :: k in rows || after[k] in page
    ensures Exact(after, h', deploy)
  {
    forall n, l | deploy <= n && LogAt(h', n, l) ensures Covered(after, h', n, l) {
      CoveredAfter(rows, after, page, h, h', deploy, n, l);
    }
    forall k | k in after ensures Belongs(after[k], h', deploy) {
      if k in rows {
        assert Belongs(rows[k], h, deploy);
        BelongsBelow(rows[k], h, h', deploy);
      } else {
        assert Belongs(after[k], h', |h|);
      }
    }
  }

  /** Before the first page nothing is covered, up to any block below the deploy block. */
  lemma NothingCovered(h: Hash, deploy: nat)
    requires |h| <= deploy
    ensures Exact(map[], h, deploy)
  {
  }

  /** The cutoff's branch continues into the page's end. */
  ghost predicate Continues(cutoff: Option<Anchor>, end: Anchor) {
    cutoff.Some? ==> cutoff.value.blockHash <= end.blockHash
  }

  lemma CommittedFaithful(db: Db, end: Anchor, page: seq<Event>, maxEvents: nat)
    requires Consistent(db, maxEvents) && Faithful(db)
    requires Committed(db, db.state.nextBlock, end, page, maxEvents).Ok?
    requires RealAnchor(end) && PageExact(page, end.blockHash, db.state.nextBlock) && Continues(db.state.cutoff, end)
    ensures Faithful(Committed(db, db.state.nextBlock, end, page, maxEvents).value)
  {
    var after := Committed(db, db.state.nextBlock, end, page, maxEvents).value;
    InsertedRows(db.events, page, db.state.nextBlock, end.blockNumber, maxEvents);
    if db.state.cutoff.Some? {
      ExactExtended(db.events, after.events, page, db.state.cutoff.value.blockHash, end.blockHash,
                    db.state.deployBlock);
    } else {
      var h := end.blockHash[..db.state.deployBlock];
      NothingCovered(h, db.state.deployBlock);
      ExactExtended(db.events, after.events, page, h, end.blockHash, db.state.deployBlock);
    }
  }

  /** The row without its status columns, and the events. */
  datatype Core = Core(chainId: nat, contract: nat, deployBlock: nat, nextBlock: nat, startAnchor: Option<Anchor>,
                       cutoff: Option<Anchor>, target: Option<Anchor>, events: map<Identity, Event>)

  function CoreOf(db: Db): Core {
    Core(db.state.chainId, db.state.contract, db.state.deployBlock, db.state.nextBlock, db.state.startAnchor,
         db.state.cutoff, db.state.target, db.events)
  }

  /** A status change that does not claim completeness keeps the invariant. */
  lemma StatusFaithful(db: Db, db': Db)
    requires Faithful(db) && CoreOf(db') == CoreOf(db) && (db'.state.coverage == Complete ==> CompleteMeans(db'))
    ensures Faithful(db')
  {
  }

  // ---------------------------------------------------------------- one stored history, one branch

  /** Two tables with the same cutoff hold the same rows: the history is a function of the cutoff hash alone. */
  lemma HistoryOfCutoff(a: Db, b: Db)
    requires Faithful(a) && Faithful(b)
    requires a.state.cutoff.Some? && a.state.cutoff == b.state.cutoff && a.state.deployBlock == b.state.deployBlock
    requires forall k | k in a.events :: IdentityOf(a.events[k]) == k
    requires forall k | k in b.events :: IdentityOf(b.events[k]) == k
    ensures a.events == b.events
  {
    var h := a.state.cutoff.value.blockHash;
    SameRows(a.events, b.events, h, a.state.deployBlock);
    SameRows(b.events, a.events, h, a.state.deployBlock);
  }

  lemma SameRows(a: map<Identity, Event>, b: map<Identity, Event>, h: Hash, from: nat)
    requires Exact(a, h, from) && Exact(b, h, from)
    requires forall k | k in a :: IdentityOf(a[k]) == k
    ensures forall k | k in a :: k in b && b[k] == a[k]
  {
    forall k | k in a ensures k in b && b[k] == a[k] {
      assert Belongs(a[k], h, from);
      var n := a[k].blockNumber;
      var l :| LogAt(h, n, l) && l.strict && a[k] == RowOf(h[..n + 1], l);
      assert Covered(b, h, n, l);
    }
  }

  // ---------------------------------------------------------------- counting creations

  function CreatedIds(rows: seq<Event>): seq<Option<nat>> {
    if rows == [] then []
    else (if rows[0].name == CREATED then [rows[0].demandId] else []) + CreatedIds(rows[1..])
  }

  predicate InRange(id: Option<nat>, next: nat) {
    id.Some? && 1 <= id.value < next
  }

  /** The check made before coverage is called complete. */
  predicate CreationsCheck(created: seq<Option<nat>>, next: nat) {
    && |created| + 1 == next
    && |set id | id in created| == |created|
    && forall id | id in created :: InRange(id, next)
  }

  lemma {:induction false} SetOfSeq<T>(s: seq<T>)
    ensures |set x | x in s| <= |s|
    ensures |set x | x in s| == |s| ==> forall i, j | 0 <= i < j < |s| :: s[i] != s[j]
  {
    if s != [] {
      SetOfSeq(s[1..]);
      var rest := set x | x in s[1..];
      assert (set x | x in s) == {s[0]} + rest;
      assert forall i | 1 <= i < |s| :: s[i] == s[1..][i - 1];
      if |set x | x in s| == |s| {
        assert s[0] !in rest;
        forall i, j | 0 <= i < j < |s| ensures s[i] != s[j] {
          if i == 0 {
            assert s[j] in rest;
          } else {
            assert s[1..][i - 1] != s[1..][j - 1];
          }
        }
      }
    }
  }

  function IdSet(n: nat): set<Option<nat>> {
    if n == 0 then {} else IdSet(n - 1) + {Some(n)}
  }

  lemma {:induction false} IdSetIs(n: nat)
    ensures |IdSet(n)| == n
    ensures forall id: Option<nat> :: id in IdSet(n) <==> InRange(id, n + 1)
  {
    if n > 0 {
      IdSetIs(n - 1);
      assert Some(n) !in IdSet(n - 1);
    }
  }

  /** Pigeonhole: n distinct ids within 1..n are all of them. */
  lemma AllIds(created: seq<Option<nat>>, next: nat)
    requires next >= 1 && CreationsCheck(created, next)
    ensures forall id | 1 <= id < next :: Some(id) in created
    ensures forall i, j | 0 <= i < j < |created| :: created[i] != created[j]
  {
    SetOfSeq(created);
    IdSetIs(next - 1);
    var ids := set id | id in created;
    assert ids <= IdSet(next - 1);
    SameSize(ids, IdSet(next - 1));
    forall id | 1 <= id < next ensures Some(id) in created {
      assert InRange(Some(id), next);
      assert Some(id) in ids;
    }
  }

  lemma {:induction false} CreatedIdsAre(rows: seq<Event>)
    ensures forall id :: id in CreatedIds(rows) <==> exists e :: e in rows && e.name == CREATED && e.demandId == id
    decreases |rows|
  {
    if rows != [] {
      CreatedIdsAre(rows[1..]);
      assert forall e :: e in rows <==> e == rows[0] || e in rows[1..];
    }
  }

  /** Distinct creation ids, seen row by row. */
  lemma {:induction false} CreatedIdsDistinct(rows: seq<Event>, i: nat, j: nat)
    requires forall p, q | 0 <= p < q < |CreatedIds(rows)| :: CreatedIds(rows)[p] != CreatedIds(rows)[q]
    requires i < j < |rows| && rows[i].name == CREATED && rows[j].name == CREATED
    ensures rows[i].demandId != rows[j].demandId
    decreases |rows|
  {
    var tail := CreatedIds(rows[1..]);
    CreatedIdsAre(rows[1..]);
    if i > 0 {
      var d := |CreatedIds(rows)| - |tail|;
      assert forall p | 0 <= p < |tail| :: CreatedIds(rows)[p + d] == tail[p];
      assert rows[1..][i - 1] == rows[i] && rows[1..][j - 1] == rows[j];
      CreatedIdsDistinct(rows[1..], i - 1, j - 1);
    } else {
      assert rows[1..][j - 1] == rows[j];
      assert rows[j].demandId in tail;
      var q :| 0 <= q < |tail| && tail[q] == rows[j].demandId;
      assert CreatedIds(rows)[0] == rows[0].demandId && CreatedIds(rows)[q + 1] == tail[q];
    }
  }

  lemma OneCreation(rows: seq<Event>, table: map<Identity, Event>, next: nat, k: Identity, k': Identity, id: nat)
    requires Lists(rows, table) && next >= 1 && CreationsCheck(CreatedIds(rows), next)
    requires forall k | k in table :: IdentityOf(table[k]) == k
    requires IsCreation(table, k, id) && IsCreation(table, k', id)
    ensures k == k'
  {
    AllIds(CreatedIds(rows), next);
    var i :| 0 <= i < |rows| && rows[i] == table[k];
    var j :| 0 <= j < |rows| && rows[j] == table[k'];
    if i < j {
      CreatedIdsDistinct(rows, i, j);
    } else if j < i {
      CreatedIdsDistinct(rows, j, i);
    }
  }

  lemma CheckedCreations(rows: seq<Event>, table: map<Identity, Event>, next: nat)
    requires Lists(rows, table) && next >= 1 && CreationsCheck(CreatedIds(rows), next)
    requires forall k | k in table :: IdentityOf(table[k]) == k
    ensures CreationsAre(table, next - 1)
  {
    var created := CreatedIds(rows);
    CreatedIdsAre(rows);
    AllIds(created, next);
    forall k | k in table && table[k].name == CREATED
      ensures table[k].demandId.Some? && 1 <= table[k].demandId.value <= next - 1
    {
      assert table[k] in rows;
      assert table[k].demandId in created;
    }
    forall id | 1 <= id <= next - 1 ensures HasCreation(table, id) {
      assert Some(id) in created;
      var e :| e in rows && e.name == CREATED && e.demandId == Some(id);
      assert IsCreation(table, IdentityOf(e), id);
    }
    forall k, k', id | IsCreation(table, k, id) && IsCreation(table, k', id) ensures k == k' {
      OneCreation(rows, table, next, k, k', id);
    }
  }

  lemma {:induction false} DistinctIds(rows: seq<Event>)
    requires forall i, j | 0 <= i < j < |rows| && rows[i].name == CREATED && rows[j].name == CREATED ::
               rows[i].demandId != rows[j].demandId
    ensures forall p, q | 0 <= p < q < |CreatedIds(rows)| :: CreatedIds(rows)[p] != CreatedIds(rows)[q]
    decreases |rows|
  {
    if rows != [] {
      var tail := CreatedIds(rows[1..]);
      assert forall i | 0 <= i < |rows[1..]| :: rows[1..][i] == rows[i + 1];
      DistinctIds(rows[1..]);
      CreatedIdsAre(rows[1..]);
      if rows[0].name == CREATED {
        forall q | 0 <= q < |tail| ensures tail[q] != rows[0].demandId {
          assert tail[q] in tail;
        }
      }
    }
  }

  lemma {:induction false} DistinctSize<T>(s: seq<T>)
    requires forall p, q | 0 <= p < q < |s| :: s[p] != s[q]
    ensures |set x | x in s| == |s|
  {
    if s != [] {
      assert forall i | 0 <= i < |s[1..]| :: s[1..][i] == s[i + 1];
      DistinctSize(s[1..]);
      var rest := set x | x in s[1..];
      assert s[0] !in rest;
      assert (set x | x in s) == {s[0]} + rest;
    }
  }

  lemma CreationIds(rows: seq<Event>, table: map<Identity, Event>, count: nat)
    requires Lists(rows, table) && CreationsAre(table, count)
    ensures (set id | id in CreatedIds(rows)) == IdSet(count)
  {
    var created := CreatedIds(rows);
    CreatedIdsAre(rows);
    IdSetIs(count);
    forall id | id in created ensures InRange(id, count + 1) {
      var e :| e in rows && e.name == CREATED && e.demandId == id;
    }
    forall id: Option<nat> | InRange(id, count + 1) ensures id in created {
      assert HasCreation(table, id.value);
      var k :| IsCreation(table, k, id.value);
      assert table[k] in rows;
    }
  }

  lemma CreationsApart(rows: seq<Event>, table: map<Identity, Event>, count: nat, i: nat, j: nat)
    requires Lists(rows, table) && CreationsAre(table, count)
    requires i < j < |rows| && rows[i].name == CREATED && rows[j].name == CREATED
    ensures rows[i].demandId != rows[j].demandId
  {
    assert rows[i] in rows && rows[j] in rows;
    var k, l := IdentityOf(rows[i]), IdentityOf(rows[j]);
    assert k != l;
    var id := rows[i].demandId.value;
    assert IsCreation(table, k, id);
    assert !IsCreation(table, l, id);
  }

  lemma CreatedApart(rows: seq<Event>, table: map<Identity, Event>, count: nat)
    requires Lists(rows, table) && CreationsAre(table, count)
    ensures forall p, q | 0 <= p < q < |CreatedIds(rows)| :: CreatedIds(rows)[p] != CreatedIds(rows)[q]
  {
    forall i, j | 0 <= i < j < |rows| && rows[i].name == CREATED && rows[j].name == CREATED
      ensures rows[i].demandId != rows[j].demandId
    {
      CreationsApart(rows, table, count, i, j);
    }
    DistinctIds(rows);
  }

  lemma AllOnceChecks(created: seq<Option<nat>>, count: nat)
    requires (forall p, q | 0 <= p < q < |created| :: created[p] != created[q]) &&
               (set id | id in created) == IdSet(count)
    ensures CreationsCheck(created, count + 1)
  {
    DistinctSize(created);
    IdSetIs(count);
    forall id | id in created ensures InRange(id, count + 1) {
      assert id in IdSet(count);
    }
  }

  /** Creations that cover 1..count pass the check: the converse of CheckedCreations. */
  lemma CountedCreations(rows: seq<Event>, table: map<Identity, Event>, next: nat)
    requires Lists(rows, table) && next >= 1 && CreationsAre(table, next - 1)
    ensures CreationsCheck(CreatedIds(rows), next)
  {
    CreatedApart(rows, table, next - 1);
    CreationIds(rows, table, next - 1);
    AllOnceChecks(CreatedIds(rows), next - 1);
  }
}
