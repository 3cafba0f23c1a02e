/** Everything that matters for a payment, in one value: the table, the clock, and the record of what was asked of
    the facilitator and what the chain confirmed. What every step keeps, and what no sequence of steps undoes. */
module PaymentWorld {
  import opened Wrappers
  import opened Texts
  import opened PaymentStore

  /** A call of the facilitator's `settle` that was let through. It may have been made: a process can stop between the
      commit that puts the row in flight and the request. */
  datatype Call = Call(id: Id, payment: nat, validBefore: nat, at: nat)

  /** The confirmation oracle said that this transaction is the transfer of this authorization. */
  datatype Answer = Answer(payment: nat, hash: string)

  /** A row that retention deleted. */
  datatype Removal = Removal(row: Payment, at: nat)

  datatype World = World(rows: Table, now: nat, issued: set<Id>, removed: map<Id, Removal>, calls: seq<Call>,
                         answers: set<Answer>)

  // ---------------------------------------------------------------- what holds in every state

  predicate Called(w: World, id: Id) {
    exists i :: 0 <= i < |w.calls| && w.calls[i].id == id
  }

  predicate ConfirmedRow(w: World, row: Payment) {
    row.txHash.Some? && Answer(row.terms.payment, Lower(row.txHash.value)) in w.answers
  }

  /** A row is in flight, or has a hash, only if it was submitted; it is settled only if the chain confirmed its
      hash. */
  predicate RowOk(w: World, id: Id)
    requires id in w.rows
  {
    var row := w.rows[id];
    && id in w.issued && id !in w.removed && row.updated <= w.now
    && (row.state == InFlight || row.txHash.Some? ==> Called(w, id))
    && (row.state == Settled ==> ConfirmedRow(w, row))
  }

  predicate RemovalOk(w: World, id: Id)
    requires id in w.removed
  {
    var gone := w.removed[id];
    id in w.issued && gone.row.id == id && Terminal(gone.row.state) && gone.row.terms.validBefore < gone.at <= w.now
  }

  predicate SameTerms(c: Call, row: Payment) {
    c.payment == row.terms.payment && c.validBefore == row.terms.validBefore
  }

  predicate Submitted(row: Payment) {
    row.state != Verified && row.state != Cancelled
  }

  /** A submitted payment stays in the table, past Verified and never Cancelled, until retention deletes it. */
  predicate CallOk(w: World, i: nat)
    requires i < |w.calls|
  {
    var c := w.calls[i];
    && c.at <= w.now && (c.id in w.rows || c.id in w.removed)
    && (c.id in w.rows ==> SameTerms(c, w.rows[c.id]) && Submitted(w.rows[c.id]))
    && (c.id in w.removed ==> SameTerms(c, w.removed[c.id].row) && Submitted(w.removed[c.id].row))
  }

  /** Call j comes after call i: never for the same row, and for the same authorization only once the first row was
      deleted, which retention does only after its validBefore, so the second call is for a later one. */
  predicate PairOk(w: World, i: nat, j: nat)
    requires i < |w.calls| && j < |w.calls|
  {
    i < j ==> && w.calls[i].id != w.calls[j].id
              && (w.calls[i].payment == w.calls[j].payment ==>
                    && w.calls[i].id in w.removed && w.removed[w.calls[i].id].at <= w.calls[j].at
                    && w.calls[i].validBefore < w.calls[j].validBefore)
  }

  predicate RowsOk(w: World) {
    Unique(w.rows) && Keyed(w.rows) && forall id | id in w.rows :: RowOk(w, id)
  }

  predicate RemovalsOk(w: World) {
    (forall id | id in w.removed :: RemovalOk(w, id)) && w.issued <= w.rows.Keys + w.removed.Keys
  }

  predicate CallsOk(w: World) {
    && (forall i | 0 <= i < |w.calls| :: CallOk(w, i))
    && forall i, j | 0 <= i < |w.calls| && 0 <= j < |w.calls| :: PairOk(w, i, j)
  }

  predicate WorldOk(w: World) {
    RowsOk(w) && RemovalsOk(w) && CallsOk(w)
  }

  // ---------------------------------------------------------------- what time cannot undo

  /** The states a row may be in later. */
  predicate Reach(a: PaymentState, b: PaymentState) {
    a == b || match a
              case Verified => true
              case InFlight => b != Verified && b != Cancelled
              case Unknown => b == Settled || b == Failed
              case _ => false
  }

  predicate SameHash(a: Option<string>, b: Option<string>) {
    a.Some? ==> b.Some? && Lower(a.value) == Lower(b.value)
  }

  /** y is what became of row x after `since`: a stored hash changes in letter case only, a finished state not at all,
      and the idempotency key is given up only by a payment cancelled before submission. */
  predicate Follows(x: Payment, y: Payment, since: nat) {
    && y.id == x.id && y.terms == x.terms && y.created == x.created
    && Reach(x.state, y.state) && SameHash(x.txHash, y.txHash)
    && (y.key == x.key || (y.key.None? && y.state == Cancelled && y.txHash.None?))
    && (y == x.(key := y.key) || (y.updated >= since && !Terminal(x.state)))
  }

  predicate RowKept(a: World, b: World, id: Id)
    requires id in a.rows
  {
    if id in b.rows then Follows(a.rows[id], b.rows[id], a.now)
    else id in b.removed && Follows(a.rows[id], b.removed[id].row, a.now)
  }

  predicate RemovalKept(a: World, b: World, id: Id)
    requires id in a.removed
  {
    id in b.removed && b.removed[id] == a.removed[id]
  }

  predicate Fresh(a: World, b: World, id: Id)
    requires id in b.rows
  {
    id in a.rows || (id !in a.issued && b.rows[id].updated >= a.now)
  }

  predicate Kept(a: World, b: World) {
    && a.now <= b.now && a.issued <= b.issued && a.calls <= b.calls && a.answers <= b.answers
    && (forall id | id in a.rows :: RowKept(a, b, id))
    && (forall id | id in a.removed :: RemovalKept(a, b, id))
    && (forall id | id in b.rows :: Fresh(a, b, id))
  }

  lemma RowsApart(w: World)
    requires RowsOk(w)
    ensures forall id | id in w.rows :: id in w.issued && id !in w.removed
    ensures forall i, j | i in w.rows && j in w.rows && i != j :: w.rows[i].terms.payment != w.rows[j].terms.payment
  {
    forall id | id in w.rows ensures id in w.issued && id !in w.removed {
      assert RowOk(w, id);
    }
    forall i, j | i in w.rows && j in w.rows && i != j ensures w.rows[i].terms.payment != w.rows[j].terms.payment {
      assert Apart(w.rows[i], w.rows[j]);
    }
  }

  lemma RemovedIssued(w: World)
    requires RemovalsOk(w)
    ensures w.removed.Keys <= w.issued
  {
    forall id | id in w.removed.Keys ensures id in w.issued {
      assert RemovalOk(w, id);
    }
  }

  lemma KeptSelf(w: World)
    requires WorldOk(w)
    ensures Kept(w, w)
  {
  }

  lemma FollowsOn(x: Payment, y: Payment, z: Payment, s: nat, t: nat)
    requires Follows(x, y, s) && Follows(y, z, t) && s <= t
    ensures Follows(x, z, s)
  {
  }

  lemma KeptOn(a: World, b: World, c: World)
    requires Kept(a, b) && Kept(b, c) && RemovalsOk(b) && RowsOk(c)
    ensures Kept(a, c)
  {
    RowsApart(c);
    forall id | id in a.rows ensures RowKept(a, c, id) {
      assert RowKept(a, b, id);
      if id in b.rows {
        assert RowKept(b, c, id);
        if id in c.rows {
          FollowsOn(a.rows[id], b.rows[id], c.rows[id], a.now, b.now);
        } else {
          FollowsOn(a.rows[id], b.rows[id], c.removed[id].row, a.now, b.now);
        }
      } else {
        assert RemovalKept(b, c, id);
      }
    }
    forall id | id in a.removed ensures RemovalKept(a, c, id) {
      assert RemovalKept(a, b, id) && RemovalKept(b, c, id);
    }
    forall id | id in c.rows ensures Fresh(a, c, id) {
      assert Fresh(b, c, id);
      if id in b.rows {
        assert Fresh(a, b, id) && RowKept(b, c, id);
        if id !in a.rows { assert Follows(b.rows[id], c.rows[id], b.now); }
      }
    }
  }

  // ---------------------------------------------------------------- the steps

  lemma TickStep(w: World, now: nat)
    requires WorldOk(w) && w.now <= now
    ensures WorldOk(w.(now := now)) && Kept(w, w.(now := now))
  {
    var w' := w.(now := now);
    forall id | id in w'.rows ensures RowOk(w', id) {
      assert RowOk(w, id);
      if Called(w, id) { assert Called(w', id); }
    }
    forall id | id in w'.removed ensures RemovalOk(w', id) { assert RemovalOk(w, id); }
    forall i | 0 <= i < |w'.calls| ensures CallOk(w', i) { assert CallOk(w, i); }
    forall i, j | 0 <= i < |w'.calls| && 0 <= j < |w'.calls| ensures PairOk(w', i, j) { assert PairOk(w, i, j); }
  }

  lemma AnswerStep(w: World, answer: Answer)
    requires WorldOk(w)
    ensures WorldOk(w.(answers := w.answers + {answer})) && Kept(w, w.(answers := w.answers + {answer}))
  {
    var w' := w.(answers := w.answers + {answer});
    forall id | id in w'.rows ensures RowOk(w', id) {
      assert RowOk(w, id);
      if Called(w, id) { assert Called(w', id); }
    }
    forall id | id in w'.removed ensures RemovalOk(w', id) { assert RemovalOk(w, id); }
    forall i | 0 <= i < |w'.calls| ensures CallOk(w', i) { assert CallOk(w, i); }
    forall i, j | 0 <= i < |w'.calls| && 0 <= j < |w'.calls| ensures PairOk(w', i, j) { assert PairOk(w, i, j); }
  }

  /** y is a legal successor of row x: the table after it is still in order. */
  predicate Step(w: World, x: Payment, y: Payment) {
    && Follows(x, y, w.now) && y.updated <= w.now
    && (y.state == InFlight || y.txHash.Some? ==> Called(w, x.id))
    && (y.state == Settled ==> ConfirmedRow(w, y))
    && (Submitted(x) ==> Submitted(y))
  }

  /** Any number of rows change at once. */
  lemma RowsStep(w: World, next: Table)
    requires WorldOk(w) && next.Keys == w.rows.Keys && Unique(next)
    requires forall id | id in next :: Step(w, w.rows[id], next[id])
    ensures WorldOk(w.(rows := next)) && Kept(w, w.(rows := next))
  {
    var w' := w.(rows := next);
    forall id | id in next ensures RowOk(w', id) && next[id].id == id {
      assert RowOk(w, id) && Step(w, w.rows[id], next[id]);
      if Called(w, id) { assert Called(w', id); }
    }
    forall id | id in w'.removed ensures RemovalOk(w', id) { assert RemovalOk(w, id); }
    forall i | 0 <= i < |w'.calls| ensures CallOk(w', i) {
      assert CallOk(w, i);
      if w.calls[i].id in next { assert Step(w, w.rows[w.calls[i].id], next[w.calls[i].id]); }
    }
    forall i, j | 0 <= i < |w'.calls| && 0 <= j < |w'.calls| ensures PairOk(w', i, j) { assert PairOk(w, i, j); }
    forall id | id in w.rows ensures RowKept(w, w', id) { assert Step(w, w.rows[id], next[id]); }
    forall id | id in w'.rows ensures Fresh(w, w', id) {}
  }

  lemma SameRowStep(w: World, id: Id)
    requires WorldOk(w) && id in w.rows
    ensures Step(w, w.rows[id], w.rows[id])
  {
    assert RowOk(w, id);
  }

  lemma OneRowStep(w: World, id: Id, y: Payment)
    requires WorldOk(w) && id in w.rows && Step(w, w.rows[id], y) && y.key == w.rows[id].key
    ensures WorldOk(w.(rows := w.rows[id := y])) && Kept(w, w.(rows := w.rows[id := y]))
  {
    OneRowUnique(w.rows, id, y);
    forall o | o in w.rows[id := y] ensures Step(w, w.rows[o], w.rows[id := y][o]) {
      if o != id { SameRowStep(w, o); }
    }
    RowsStep(w, w.rows[id := y]);
  }

  /** A transition that neither submits nor settles, with a hash only on a row that was submitted. */
  lemma TransitionStep(w: World, id: Id, from: PaymentState, next: PaymentState, hash: Option<string>,
                       note: Option<Note>)
    requires WorldOk(w) && Transitioned(w.rows, id, from, next, hash, note, w.now).Ok?
    requires next != InFlight && (next == Settled ==> ConfirmedRow(w, w.rows[id]))
    requires hash.Some? ==> from == InFlight && next != Settled
    ensures var w' := w.(rows := Transitioned(w.rows, id, from, next, hash, note, w.now).value);
            WorldOk(w') && Kept(w, w')
  {
    assert RowOk(w, id);
    OneRowStep(w, id, Moved(w.rows[id], next, hash, note, w.now));
  }

  lemma CheckpointStep(w: World, id: Id, payment: nat, hash: string)
    requires WorldOk(w) && Checkpointed(w.rows, id, payment, hash, w.now).Ok?
    ensures var w' := w.(rows := Checkpointed(w.rows, id, payment, hash, w.now).value);
            WorldOk(w') && Kept(w, w')
  {
    assert RowOk(w, id);
    OneRowStep(w, id, w.rows[id].(txHash := Some(hash), updated := w.now));
  }

  lemma RecoverStep(w: World)
    requires WorldOk(w)
    ensures WorldOk(w.(rows := Recovered(w.rows, w.now))) && Kept(w, w.(rows := Recovered(w.rows, w.now)))
  {
    RecoveredUnique(w.rows, w.now);
    forall id | id in w.rows ensures Step(w, w.rows[id], Recovered(w.rows, w.now)[id]) {
      SameRowStep(w, id);
    }
    RowsStep(w, Recovered(w.rows, w.now));
  }

  // ---------------------------------------------------------------- submitting

  /** No earlier call can be for the same authorization and deadline as a row that is Verified and still valid. */
  lemma NoEarlierCall(w: World, id: Id, checkedAt: nat, i: nat)
    requires WorldOk(w) && id in w.rows && w.rows[id].state == Verified && i < |w.calls|
    requires w.now == checkedAt && w.rows[id].terms.validBefore > checkedAt
    ensures w.calls[i].id != id
    ensures w.calls[i].payment == w.rows[id].terms.payment ==>
              && w.calls[i].id in w.removed && w.removed[w.calls[i].id].at <= checkedAt
              && w.calls[i].validBefore < w.rows[id].terms.validBefore
  {
    assert CallOk(w, i);
    RowsApart(w);
    var c := w.calls[i];
    if c.payment == w.rows[id].terms.payment {
      assert RemovalOk(w, c.id);
    }
  }

  function Submission(w: World, id: Id): World
    requires id in w.rows
  {
    w.(rows := w.rows[id := Moved(w.rows[id], InFlight, None, None, w.now)],
       calls := w.calls + [Call(id, w.rows[id].terms.payment, w.rows[id].terms.validBefore, w.now)])
  }

  lemma SubmissionRows(w: World, id: Id)
    requires WorldOk(w) && id in w.rows && w.rows[id].state == Verified
    ensures RowsOk(Submission(w, id)) && RemovalsOk(Submission(w, id))
  {
    var w' := Submission(w, id);
    OneRowUnique(w.rows, id, w'.rows[id]);
    assert w'.calls[|w.calls|].id == id;
    forall o | o in w'.rows ensures RowOk(w', o) {
      assert RowOk(w, o);
      if Called(w, o) {
        var i :| 0 <= i < |w.calls| && w.calls[i].id == o;
        assert w'.calls[i].id == o;
      }
    }
    forall o | o in w'.removed ensures RemovalOk(w', o) { assert RemovalOk(w, o); }
  }

  /** The deadline was checked at `checkedAt`, just before; the clock may have moved on since. */
  lemma SubmissionCalls(w: World, id: Id, checkedAt: nat)
    requires WorldOk(w) && id in w.rows && w.rows[id].state == Verified
    requires checkedAt <= w.now && WorldOk(w.(now := checkedAt)) && w.rows[id].terms.validBefore > checkedAt
    ensures CallsOk(Submission(w, id))
  {
    var w' := Submission(w, id);
    var n := |w.calls|;
    assert RowOk(w, id);
    forall i | 0 <= i < |w'.calls| ensures CallOk(w', i) {
      if i < n { assert CallOk(w, i); NoEarlierCall(w.(now := checkedAt), id, checkedAt, i); }
    }
    forall i, j | 0 <= i < |w'.calls| && 0 <= j < |w'.calls| ensures PairOk(w', i, j) {
      if i < n && j < n { assert PairOk(w, i, j); }
      if i < n && j == n { NoEarlierCall(w.(now := checkedAt), id, checkedAt, i); }
    }
  }

  lemma SubmissionStep(w: World, id: Id, checkedAt: nat)
    requires WorldOk(w) && id in w.rows && w.rows[id].state == Verified
    requires checkedAt <= w.now && WorldOk(w.(now := checkedAt)) && w.rows[id].terms.validBefore > checkedAt
    ensures WorldOk(Submission(w, id)) && Kept(w, Submission(w, id))
  {
    SubmissionRows(w, id);
    SubmissionCalls(w, id, checkedAt);
    var w' := Submission(w, id);
    forall o | o in w.rows ensures RowKept(w, w', o) {}
    forall o | o in w.removed ensures RemovalKept(w, w', o) {}
    forall o | o in w'.rows ensures Fresh(w, w', o) {}
  }

  // ---------------------------------------------------------------- reserving and deleting

  function WithReservation(w: World, input: Reservation, id: Id): World {
    w.(rows := Reserved(w.rows, input, id, w.now), issued := w.issued + {id})
  }

  lemma ReservationRows(w: World, input: Reservation, id: Id)
    requires WorldOk(w) && id !in w.issued && !Blocked(Released(w.rows, input.key), input)
    ensures RowsOk(WithReservation(w, input, id)) && RemovalsOk(WithReservation(w, input, id))
  {
    var w' := WithReservation(w, input, id);
    RowsApart(w);
    RemovedIssued(w);
    ReservedUnique(w.rows, input, id, w.now);
    forall o | o in w'.rows ensures RowOk(w', o) {
      if o != id {
        assert RowOk(w, o);
        if Called(w, o) { assert Called(w', o); }
      }
    }
    forall o | o in w'.removed ensures RemovalOk(w', o) { assert RemovalOk(w, o); }
  }

  lemma ReservationCalls(w: World, input: Reservation, id: Id)
    requires WorldOk(w) && id !in w.issued
    ensures CallsOk(WithReservation(w, input, id))
  {
    var w' := WithReservation(w, input, id);
    RowsApart(w);
    RemovedIssued(w);
    forall i | 0 <= i < |w'.calls| ensures CallOk(w', i) { assert CallOk(w, i); }
    forall i, j | 0 <= i < |w'.calls| && 0 <= j < |w'.calls| ensures PairOk(w', i, j) { assert PairOk(w, i, j); }
  }

  lemma ReserveStep(w: World, input: Reservation, id: Id)
    requires WorldOk(w) && id !in w.issued && !Blocked(Released(w.rows, input.key), input)
    ensures WorldOk(WithReservation(w, input, id)) && Kept(w, WithReservation(w, input, id))
  {
    ReservationRows(w, input, id);
    ReservationCalls(w, input, id);
    RowsApart(w);
    var w' := WithReservation(w, input, id);
    forall o | o in w.rows ensures RowKept(w, w', o) {}
    forall o | o in w.removed ensures RemovalKept(w, w', o) {}
    forall o | o in w'.rows ensures Fresh(w, w', o) {}
  }

  function Removals(rows: Table, gone: set<Id>, at: nat): map<Id, Removal>
    requires gone <= rows.Keys
  {
    map id | id in gone :: Removal(rows[id], at)
  }

  function Deletion(w: World, gone: set<Id>): World
    requires gone <= w.rows.Keys
  {
    w.(rows := w.rows - gone, removed := w.removed + Removals(w.rows, gone, w.now))
  }

  lemma DeletionStep(w: World, gone: set<Id>)
    requires WorldOk(w) && gone <= w.rows.Keys
    requires forall id | id in gone :: Terminal(w.rows[id].state) && w.rows[id].terms.validBefore < w.now
    ensures WorldOk(Deletion(w, gone)) && Kept(w, Deletion(w, gone))
  {
    var w' := Deletion(w, gone);
    RowsApart(w);
    forall i, j | i in w'.rows && j in w'.rows && i != j ensures Apart(w'.rows[i], w'.rows[j]) {
      assert Apart(w.rows[i], w.rows[j]);
    }
    forall id | id in w'.rows ensures RowOk(w', id) {
      assert RowOk(w, id);
      if Called(w, id) { assert Called(w', id); }
    }
    forall id | id in w'.removed ensures RemovalOk(w', id) {
      if id in gone { assert RowOk(w, id); } else { assert RemovalOk(w, id); }
    }
    forall i | 0 <= i < |w'.calls| ensures CallOk(w', i) { assert CallOk(w, i); }
    forall i, j | 0 <= i < |w'.calls| && 0 <= j < |w'.calls| ensures PairOk(w', i, j) {
      assert PairOk(w, i, j);
    }
    forall id | id in w.rows ensures RowKept(w, w', id) { SameRowStep(w, id); }
    forall id | id in w.removed ensures RemovalKept(w, w', id) {}
    forall id | id in w'.rows ensures Fresh(w, w', id) {}
  }

  // ---------------------------------------------------------------- what it means

  /** `settle` is let through at most once for an authorization and a deadline. */
  lemma SettledAtMostOnce(w: World, i: nat, j: nat)
    requires WorldOk(w) && i < |w.calls| && j < |w.calls|
    requires w.calls[i].payment == w.calls[j].payment && w.calls[i].validBefore == w.calls[j].validBefore
    ensures i == j
  {
    assert PairOk(w, i, j) && PairOk(w, j, i);
  }

  /** A second call for an authorization comes only after retention deleted the finished first payment, whose
      deadline had passed by then. */
  lemma SecondCallAfterCleanup(w: World, i: nat, j: nat)
    requires WorldOk(w) && i < j < |w.calls| && w.calls[i].payment == w.calls[j].payment
    ensures var c := w.calls[i];
            && c.id in w.removed && Terminal(w.removed[c.id].row.state) && w.removed[c.id].row.state != Cancelled
            && w.removed[c.id].row.terms.payment == c.payment
            && c.validBefore < w.removed[c.id].at <= w.calls[j].at
  {
    assert PairOk(w, i, j) && CallOk(w, i);
    assert RemovalOk(w, w.calls[i].id);
  }

  /** No two payments share an authorization or an idempotency key. */
  lemma NoSharing(w: World, i: Id, j: Id)
    requires WorldOk(w) && i in w.rows && j in w.rows && i != j
    ensures w.rows[i].terms.payment != w.rows[j].terms.payment
    ensures w.rows[i].key.Some? ==> w.rows[i].key != w.rows[j].key
  {
    assert Apart(w.rows[i], w.rows[j]);
  }

  /** Settled means submitted, and confirmed by the chain under the stored hash. */
  lemma SettledMeans(w: World, id: Id)
    requires WorldOk(w) && id in w.rows && w.rows[id].state == Settled
    ensures w.rows[id].txHash.Some? && Answer(w.rows[id].terms.payment, Lower(w.rows[id].txHash.value)) in w.answers
    ensures exists i :: 0 <= i < |w.calls| && w.calls[i].id == id && SameTerms(w.calls[i], w.rows[id])
  {
    assert RowOk(w, id);
    var i :| 0 <= i < |w.calls| && w.calls[i].id == id;
    assert CallOk(w, i);
  }

  /** Later in a run: the same payment, whose finished state and stored hash are still what they were. */
  lemma NothingUndone(a: World, b: World, id: Id)
    requires Kept(a, b) && id in a.rows && id in b.rows
    ensures b.rows[id].terms == a.rows[id].terms
    ensures Terminal(a.rows[id].state) ==> b.rows[id].state == a.rows[id].state
    ensures a.rows[id].txHash.Some? ==>
              b.rows[id].txHash.Some? && Lower(b.rows[id].txHash.value) == Lower(a.rows[id].txHash.value)
    ensures b.rows[id].key != a.rows[id].key ==>
              b.rows[id].key.None? && b.rows[id].state == Cancelled && b.rows[id].txHash.None?
  {
    assert RowKept(a, b, id);
  }
}
