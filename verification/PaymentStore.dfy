/** The payments table. Every operation is one transaction, given as a function from the table before to the
    table after (Err: rolled back) and as the method that performs it.

    Fingerprints, addresses and amounts are compared and never taken apart, so they are numbers here.
    A transaction hash keeps its text, because its letter case may differ from one report to the next. */
module PaymentStore {
  import opened Wrappers
  import opened Texts

  type Id = nat

  datatype PaymentState = Verified | InFlight | Unknown | Settled | Failed | Cancelled

  datatype Note = ProcessInterrupted | ExecutionIncomplete | SettlementUnconfirmed | SettlementAmbiguous
                | SettlementFailed | ReconciliationPending | ReconciliationUnavailable

  /** What the payer signed and asked for; `payment` identifies the authorization, `binding` the whole request. */
  datatype Terms = Terms(payment: nat, binding: nat, network: nat, recipient: nat, amount: nat, payer: nat,
                         validBefore: nat)

  datatype Reservation = Reservation(terms: Terms, key: Option<nat>)

  datatype Payment = Payment(id: Id, terms: Terms, key: Option<nat>, state: PaymentState, txHash: Option<string>,
                             created: nat, updated: nat, note: Option<Note>)

  type Table = map<Id, Payment>

  datatype Error = StorageUnavailable | IdempotencyConflict | AlreadyReserved | OverCapacity | StateInvalid
                 | StateConflict | IdentityUnsupported | NoContext | ReconciliationRequired | ProviderFailed

  // ---------------------------------------------------------------- hashes

  predicate HashAgrees(hash: Option<string>, stored: Option<string>) {
    hash.None? || stored.None? || Lower(stored.value) == Lower(hash.value)
  }

  // ---------------------------------------------------------------- reserve

  /** Two rows share neither the authorization nor an idempotency key. */
  predicate Apart(a: Payment, b: Payment) {
    a.terms.payment != b.terms.payment && (a.key.None? || a.key != b.key)
  }

  predicate Unique(t: Table) {
    forall i, j | i in t && j in t && i != j :: Apart(t[i], t[j])
  }

  /** A key may be taken over from a payment that was cancelled before anything was submitted. */
  predicate Releasable(row: Payment, key: Option<nat>) {
    key.Some? && row.key == key && row.state == Cancelled && row.txHash.None?
  }

  function Released(t: Table, key: Option<nat>): Table {
    map id | id in t :: if Releasable(t[id], key) then t[id].(key := None) else t[id]
  }

  predicate Matches(row: Payment, input: Reservation) {
    row.terms.payment == input.terms.payment || (input.key.Some? && row.key == input.key)
  }

  function Verdict(prior: Payment, input: Reservation): Error {
    if prior.terms.payment != input.terms.payment || prior.terms.binding != input.terms.binding ||
      prior.key != input.key
    then IdempotencyConflict else AlreadyReserved
  }

  function NewRow(id: Id, input: Reservation, now: nat): Payment {
    Payment(id, input.terms, input.key, Verified, None, now, now, None)
  }

  predicate Blocked(t: Table, input: Reservation) {
    exists id :: id in t && Matches(t[id], input)
  }

  /** The row stands in the way of the reservation: it holds the authorization, or the key and is not a payment that
      was cancelled before it had a hash. */
  ghost predicate InTheWay(row: Payment, input: Reservation) {
    || row.terms.payment == input.terms.payment
    || (input.key.Some? && row.key == input.key && !(row.state == Cancelled && row.txHash.None?))
  }

  lemma BlockedIff(t: Table, input: Reservation)
    ensures Blocked(Released(t, input.key), input) <==> exists id :: id in t && InTheWay(t[id], input)
  {
    var free := Released(t, input.key);
    if id :| id in t && InTheWay(t[id], input) {
      assert Matches(free[id], input);
    }
    if id :| id in free && Matches(free[id], input) {
      assert InTheWay(t[id], input);
    }
  }

  /** The key of a payment that was cancelled before anything was submitted can be reserved again: such a payment then
      has no key, and nothing else about the stored payments changes. */
  lemma KeyIsFreed(t: Table, input: Reservation, id: Id, now: nat, prior: Id)
    requires Unique(t) && id !in t && prior in t && t[prior].key == input.key && input.key.Some?
    requires t[prior].state == Cancelled && t[prior].txHash.None?
    requires forall i | i in t :: t[i].terms.payment != input.terms.payment
    ensures !Blocked(Released(t, input.key), input)
    ensures var next := Reserved(t, input, id, now);
            && next[prior] == t[prior].(key := None) && next[id].key == input.key
            && forall i | i in t && i != prior :: next[i] == t[i]
  {
    forall i | i in t && i != prior ensures !InTheWay(t[i], input) && Released(t, input.key)[i] == t[i] {
      assert Apart(t[i], t[prior]);
    }
    BlockedIff(t, input);
  }

  /** The table after a reservation under the id drawn for it. */
  function Reserved(t: Table, input: Reservation, id: Id, now: nat): Table {
    Released(t, input.key)[id := NewRow(id, input, now)]
  }

  /** The error does not depend on which matching row is found first. */
  lemma VerdictUnique(t: Table, input: Reservation, i: Id, j: Id)
    requires Unique(t) && i in t && j in t && Matches(t[i], input) && Matches(t[j], input)
    ensures Verdict(t[i], input) == Verdict(t[j], input)
  {
    if i != j {
      assert Apart(t[i], t[j]);
    }
  }

  /** "Already reserved" is said exactly of the same request under the same key; every other match is a conflict. */
  lemma AlreadyReservedIff(t: Table, input: Reservation, i: Id)
    requires Unique(t) && i in t && Matches(t[i], input)
    ensures Verdict(t[i], input) == AlreadyReserved <==>
              exists j :: j in t && t[j].terms.payment == input.terms.payment &&
                          t[j].terms.binding == input.terms.binding && t[j].key == input.key
  {
    if j :| && j in t && t[j].key == input.key
            && t[j].terms.payment == input.terms.payment && t[j].terms.binding == input.terms.binding {
      assert Matches(t[j], input);
      VerdictUnique(t, input, i, j);
    }
  }

  lemma ReservedUnique(t: Table, input: Reservation, id: Id, now: nat)
    requires Unique(t) && id !in t && !Blocked(Released(t, input.key), input)
    ensures Unique(Reserved(t, input, id, now))
  {
    var next := Reserved(t, input, id, now);
    var free := Released(t, input.key);
    forall i, j | i in next && j in next && i != j ensures Apart(next[i], next[j]) {
      assert i != id ==> i in free && !Matches(free[i], input);
      assert j != id ==> j in free && !Matches(free[j], input);
      if i != id && j != id {
        assert Apart(t[i], t[j]);
      }
    }
  }

  // ---------------------------------------------------------------- transition

  predicate Allowed(from: PaymentState, next: PaymentState) {
    match from
    case Verified => next in {InFlight, Cancelled, Unknown}
    case InFlight => next in {Settled, Failed, Unknown}
    case Unknown => next in {Unknown, Settled, Failed}
    case _ => false
  }

  predicate Terminal(s: PaymentState) {
    s.Settled? || s.Failed? || s.Cancelled?
  }

  function Moved(row: Payment, next: PaymentState, hash: Option<string>, note: Option<Note>, now: nat): Payment {
    row.(state := next, txHash := if hash.Some? then hash else row.txHash, updated := now, note := note)
  }

  /** Compare-and-set on the state, and on the hash if one is given. */
  function Transitioned(t: Table, id: Id, from: PaymentState, next: PaymentState, hash: Option<string>,
                        note: Option<Note>, now: nat): (r: Result<Table, Error>)
    ensures r == Err(StateInvalid) <==> !Allowed(from, next) || (hash.Some? && !IsHash(hash.value))
    ensures r.Ok? ==> id in t && t[id].state == from && HashAgrees(hash, t[id].txHash) && r.value.Keys == t.Keys
    ensures r.Ok? ==> && r.value[id].state == next && r.value[id].updated == now && r.value[id].note == note
                      && r.value[id].txHash == (match hash case None => t[id].txHash case Some(_) => hash)
                      && r.value[id].terms == t[id].terms && r.value[id].key == t[id].key
                      && r.value[id].id == t[id].id && r.value[id].created == t[id].created
                      && forall o | o in t && o != id :: r.value[o] == t[o]
  {
    if !Allowed(from, next) || (hash.Some? && !IsHash(hash.value)) then Err(StateInvalid)
    else if id !in t || t[id].state != from || !HashAgrees(hash, t[id].txHash) then Err(StateConflict)
    else Ok(t[id := Moved(t[id], next, hash, note, now)])
  }

  function Checkpointed(t: Table, id: Id, payment: nat, hash: string, now: nat): (r: Result<Table, Error>)
    ensures r == Err(StateInvalid) <==> !IsHash(hash)
    ensures r.Ok? ==>
              && id in t && t[id].state == InFlight && t[id].terms.payment == payment && r.value.Keys == t.Keys
                      && r.value[id].txHash == Some(hash) && r.value[id].state == InFlight
  {
    if !IsHash(hash) then Err(StateInvalid)
    else if id !in t || t[id].terms.payment != payment || t[id].state != InFlight ||
      !HashAgrees(Some(hash), t[id].txHash)
    then Err(StateConflict)
    else Ok(t[id := t[id].(txHash := Some(hash), updated := now)])
  }

  predicate Interrupted(row: Payment) {
    row.state == Verified || row.state == InFlight
  }

  /** Nothing is known any more of what was reserved or submitted and not finished; everything else stays. */
  function Recovered(t: Table, now: nat): (r: Table)
    ensures r.Keys == t.Keys
    ensures forall id | id in t :: r[id].state == match t[id].state
                                                  case Verified => Unknown
                                                  case InFlight => Unknown
                                                  case s => s
    ensures forall id | id in t && r[id].state == t[id].state :: r[id] == t[id]
    ensures forall id | id in t && r[id].state != t[id].state ::
              r[id] == t[id].(state := Unknown, updated := now, note := Some(ProcessInterrupted))
  {
    map id | id in t :: if Interrupted(t[id]) then
      t[id].(state := Unknown, updated := now, note := Some(ProcessInterrupted)) else t[id]
  }

  // ---------------------------------------------------------------- ordered selections

  predicate Before(a: Payment, b: Payment) {
    a.updated < b.updated || (a.updated == b.updated && a.id < b.id)
  }

  predicate Keyed(t: Table) {
    forall id | id in t :: t[id].id == id
  }

  function Waiting(t: Table, withHash: bool): set<Id> {
    set id | id in t && t[id].state == Unknown && (withHash ==> t[id].txHash.Some?)
  }

  predicate ComesFirst(t: Table, id: Id, others: set<Id>)
    requires id in t && others <= t.Keys
  {
    forall o | o in others && o != id :: Before(t[id], t[o])
  }

  /** `list` holds the first n rows of `ids`, in order. */
  ghost predicate FirstOf(list: seq<Payment>, t: Table, ids: set<Id>, n: nat) {
    && |list| == (if n < |ids| then n else |ids|)
    && (forall k | 0 <= k < |list| :: list[k].id in ids && list[k].id in t && t[list[k].id] == list[k])
    && (forall k, l | 0 <= k < l < |list| :: Before(list[k], list[l]))
    && (forall k, o | 0 <= k < |list| && o in ids && o in t && t[o] !in list :: Before(list[k], t[o]))
  }

  method Earliest(t: Table, ids: set<Id>) returns (id: Id)
    requires Keyed(t) && ids != {} && ids <= t.Keys
    ensures id in ids && ComesFirst(t, id, ids)
  {
    id :| id in ids;
    var left := ids - {id};
    while left != {}
      invariant left <= ids && id in ids && id !in left
      invariant ComesFirst(t, id, ids - left)
      decreases left
    {
      var o :| o in left;
      if Before(t[o], t[id]) { id := o; }
      left := left - {o};
    }
    assert ids - left == ids;
  }

  method Select(t: Table, ids: set<Id>, n: nat) returns (list: seq<Payment>)
    requires Keyed(t) && ids <= t.Keys
    ensures FirstOf(list, t, ids, n)
  {
    list := [];
    var left := ids;
    while left != {} && |list| < n
      invariant left <= ids && |list| + |left| == |ids| && |list| <= n
      invariant forall k | 0 <= k < |list| :: list[k].id in ids && list[k].id !in left && t[list[k].id] == list[k]
      invariant forall o | o in ids && o !in left :: t[o] in list
      invariant forall k, l | 0 <= k < l < |list| :: Before(list[k], list[l])
      invariant forall k, o | 0 <= k < |list| && o in left :: Before(list[k], t[o])
      decreases left
    {
      var id := Earliest(t, left);
      list := list + [t[id]];
      left := left - {id};
    }
  }

  /** What retention may delete. */
  predicate Expired(row: Payment, retention: int, now: nat) {
    Terminal(row.state) && row.updated < now - retention && row.terms.validBefore < now
  }

  /** The payment is over, was last touched longer ago than the retention time, and its deadline has passed. */
  ghost predicate Outdated(row: Payment, retention: int, now: nat) {
    && (row.state == Settled || row.state == Failed || row.state == Cancelled)
    && now - row.updated > retention && now > row.terms.validBefore
  }

  ghost function OutdatedIds(t: Table, retention: int, now: nat): set<Id> {
    set id | id in t && Outdated(t[id], retention, now)
  }

  function ExpiredIds(t: Table, retention: int, now: nat): (ids: set<Id>)
    ensures ids == OutdatedIds(t, retention, now)
  {
    set id | id in t && Expired(t[id], retention, now)
  }

  /** The oldest `CLEANUP` outdated rows are gone and nothing else. */
  ghost predicate Cleaned(t: Table, t': Table, retention: int, now: nat) {
    var gone := t.Keys - t'.Keys;
    var outdated := OutdatedIds(t, retention, now);
    && t' == t - gone && gone <= outdated && |gone| == (if CLEANUP < |outdated| then CLEANUP else |outdated|)
    && forall i, j | i in gone && j in outdated && j !in gone :: t[i].updated <= t[j].updated
  }

  const CLEANUP := 1000
  const LIST := 100

  // ---------------------------------------------------------------- fresh ids

  lemma Unused(s: set<nat>) returns (n: nat)
    ensures n !in s && forall m | m in s :: m < n
    decreases s
  {
    if s == {} { return 0; }
    var x :| x in s;
    var rest := Unused(s - {x});
    n := if x < rest then rest else x + 1;
    forall m | m in s ensures m < n {
      assert m == x || m in s - {x};
    }
  }

  // ---------------------------------------------------------------- the store

  class Store {
    var rows: Table
    /** The clock, which never goes back. */
    var now: nat
    /** Ids drawn so far: a random UUID is never drawn twice. */
    var issued: set<Id>
    const maxRecords: nat
    /** Storage never fails. */
    const reliable: bool

    ghost predicate Valid()
      reads this
    {
      Unique(rows) && Keyed(rows) && rows.Keys <= issued
    }

    constructor (maxRecords: nat, reliable: bool, start: nat)
      ensures Valid() && rows == map[] && now == start && issued == {} && this.maxRecords == maxRecords &&
                this.reliable == reliable
    {
      rows, now, issued := map[], start, {};
      this.maxRecords, this.reliable := maxRecords, reliable;
    }

    /** The file checks before each operation. */
    method Available() returns (r: Result<(), Error>)
      ensures r.Ok? || r == Err(StorageUnavailable)
      ensures reliable ==> r.Ok?
    {
      r := Ok(());
      if !reliable {
        if * { r := Err(StorageUnavailable); }
      }
    }

    method Get(id: Id) returns (r: Result<Option<Payment>, Error>)
      ensures r == Err(StorageUnavailable) || r == Ok(if id in rows then Some(rows[id]) else None)
      ensures reliable ==> r.Ok?
    {
      var _ :- Available();
      r := Ok(if id in rows then Some(rows[id]) else None);
    }

    method FindPayment(payment: nat) returns (r: Result<bool, Error>)
      ensures r == Err(StorageUnavailable) || r == Ok(exists id :: id in rows && rows[id].terms.payment == payment)
      ensures reliable ==> r.Ok?
    {
      var _ :- Available();
      r := Ok(exists id :: id in rows && rows[id].terms.payment == payment);
    }

    /** A refusal changes nothing, not even the key it would have released. */
    method Reserve(input: Reservation) returns (r: Result<Payment, Error>)
      requires Valid()
      modifies this`rows, this`issued
      ensures Valid() && old(issued) <= issued
      ensures r.Err? ==> rows == old(rows) && issued == old(issued)
      ensures r.Err? && r.error != StorageUnavailable ==>
                if Blocked(Released(rows, input.key), input)
                then exists id :: id in rows && Matches(Released(rows, input.key)[id], input) &&
                                  r.error == Verdict(Released(rows, input.key)[id], input)
                else r.error == OverCapacity && |rows| >= maxRecords
      ensures reliable && r.Err? ==> r.error != StorageUnavailable
      ensures reliable ==>
                (r.Ok? <==>
                 !(exists id :: id in old(rows) && InTheWay(old(rows)[id], input)) && |old(rows)| < maxRecords)
      ensures r.Ok? ==> && !Blocked(Released(old(rows), input.key), input) && |old(rows)| < maxRecords
                        && r.value.id !in old(issued) && issued == old(issued) + {r.value.id}
                        && r.value == NewRow(r.value.id, input, now)
                        && rows == Reserved(old(rows), input, r.value.id, now)
    {
      var _ :- Available();
      BlockedIff(rows, input);
      var free := Released(rows, input.key);
      assert |free| == |rows| by { assert free.Keys == rows.Keys; assert |free.Keys| == |free|; }
      if Blocked(free, input) {
        var prior :| prior in free && Matches(free[prior], input);
        return Err(Verdict(free[prior], input));
      }
      if |free| >= maxRecords { return Err(OverCapacity); }
      ghost var unused := Unused(issued);
      assert unused !in issued;
      var id: nat :| id !in issued;
      ReservedUnique(rows, input, id, now);
      rows, issued := free[id := NewRow(id, input, now)], issued + {id};
      r := Ok(rows[id]);
    }

    method Transition(id: Id, from: PaymentState, next: PaymentState, hash: Option<string>, note: Option<Note>)
      returns (r: Result<(), Error>)
      requires Valid()
      modifies this`rows
      ensures Valid()
      ensures var after := Transitioned(old(rows), id, from, next, hash, note, now);
              if r.Ok? then after.Ok? && rows == after.value
              else rows == old(rows) && (r.error == StorageUnavailable || (after.Err? && r.error == after.error))
      ensures reliable && Transitioned(old(rows), id, from, next, hash, note, now).Ok? ==> r.Ok?
    {
      var _ :- Available();
      var after :- Transitioned(rows, id, from, next, hash, note, now);
      OneRowUnique(rows, id, after[id]);
      rows := after;
      r := Ok(());
    }

    method CheckpointHash(id: Id, payment: nat, hash: string) returns (r: Result<(), Error>)
      requires Valid()
      modifies this`rows
      ensures Valid()
      ensures var after := Checkpointed(old(rows), id, payment, hash, now);
              if r.Ok? then after.Ok? && rows == after.value
              else rows == old(rows) && (r.error == StorageUnavailable || (after.Err? && r.error == after.error))
      ensures reliable && Checkpointed(old(rows), id, payment, hash, now).Ok? ==> r.Ok?
    {
      var _ :- Available();
      var after :- Checkpointed(rows, id, payment, hash, now);
      OneRowUnique(rows, id, after[id]);
      rows := after;
      r := Ok(());
    }

    method RecoverInterrupted() returns (r: Result<nat, Error>)
      requires Valid()
      modifies this`rows
      ensures Valid()
      ensures r.Ok? ==> rows == Recovered(old(rows), now)
      ensures r.Ok? ==> r.value == |set id | id in old(rows) && Interrupted(old(rows)[id])|
      ensures r.Err? ==> rows == old(rows) && r.error == StorageUnavailable
    {
      var _ :- Available();
      var changes := |set id | id in rows && Interrupted(rows[id])|;
      RecoveredUnique(rows, now);
      rows := Recovered(rows, now);
      r := Ok(changes);
    }

    /** The unresolved payments, longest untouched first. */
    method Pending(limit: int, withHash: bool) returns (r: Result<seq<Payment>, Error>)
      requires Valid()
      ensures r.Err? ==> r.error == StorageUnavailable
      ensures r.Ok? ==> FirstOf(r.value, rows, Waiting(rows, withHash), Clamp(limit))
      ensures reliable ==> r.Ok?
    {
      var _ :- Available();
      var list := Select(rows, Waiting(rows, withHash), Clamp(limit));
      r := Ok(list);
    }

    method Cleanup(retention: int) returns (r: Result<nat, Error>)
      requires Valid()
      modifies this`rows
      ensures Valid()
      ensures r.Err? ==> rows == old(rows) && r.error == StorageUnavailable
      ensures r.Ok? ==> Cleaned(old(rows), rows, retention, now) && r.value == |old(rows).Keys - rows.Keys|
    {
      var _ :- Available();
      var oldest := Select(rows, ExpiredIds(rows, retention, now), CLEANUP);
      var gone := IdsIn(oldest);
      CleanedUp(rows, oldest, retention, now);
      StillUnique(rows, gone);
      rows := rows - gone;
      r := Ok(|gone|);
    }
  }

  function Clamp(limit: int): (n: nat)
    ensures 1 <= n <= LIST && (1 <= limit <= LIST ==> n == limit)
    ensures (limit < 1 ==> n == 1) && (limit > LIST ==> n == LIST)
  {
    if limit < 1 then 1 else if limit > LIST then LIST else limit
  }

  lemma OneRowUnique(t: Table, id: Id, row: Payment)
    requires Unique(t) && Keyed(t) && id in t && row.id == id && row.terms == t[id].terms && row.key == t[id].key
    ensures Unique(t[id := row]) && Keyed(t[id := row])
  {
    forall i, j | i in t && j in t && i != j ensures Apart(t[id := row][i], t[id := row][j]) {
      assert Apart(t[i], t[j]);
    }
  }

  lemma RecoveredUnique(t: Table, now: nat)
    requires Unique(t) && Keyed(t)
    ensures Unique(Recovered(t, now)) && Keyed(Recovered(t, now))
  {
    forall i, j | i in t && j in t && i != j ensures Apart(Recovered(t, now)[i], Recovered(t, now)[j]) {
      assert Apart(t[i], t[j]);
    }
  }

  function IdsIn(list: seq<Payment>): set<Id> {
    set row | row in list :: row.id
  }

  lemma {:induction false} IdsOf(list: seq<Payment>)
    requires forall k, l | 0 <= k < l < |list| :: list[k].id != list[l].id
    ensures |set row | row in list :: row.id| == |list|
  {
    if list != [] {
      var last := list[|list| - 1];
      var init := list[..|list| - 1];
      IdsOf(init);
      assert (set row | row in list :: row.id) == (set row | row in init :: row.id) + {last.id};
    }
  }

  lemma CleanedUp(t: Table, oldest: seq<Payment>, retention: int, now: nat)
    requires Keyed(t) && FirstOf(oldest, t, OutdatedIds(t, retention, now), CLEANUP)
    ensures var after := t - IdsIn(oldest);
            && Cleaned(t, after, retention, now) && t.Keys - after.Keys == IdsIn(oldest)
  {
    var gone, after := IdsIn(oldest), t - IdsIn(oldest);
    IdsOf(oldest);
    assert t.Keys - after.Keys == gone;
    forall i, j | i in gone && j in OutdatedIds(t, retention, now) && j !in gone ensures t[i].updated <= t[j].updated {
      var k :| 0 <= k < |oldest| && oldest[k].id == i;
      assert t[j] !in oldest;
      assert Before(oldest[k], t[j]);
    }
  }

  lemma StillUnique(t: Table, gone: set<Id>)
    requires Keyed(t) && Unique(t)
    ensures Keyed(t - gone) && Unique(t - gone) && (t - gone).Keys <= t.Keys
  {
    forall i, j | i in t - gone && j in t - gone && i != j ensures Apart((t - gone)[i], (t - gone)[j]) {
      assert Apart(t[i], t[j]);
    }
  }
}
