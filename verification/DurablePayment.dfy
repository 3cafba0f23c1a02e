/** The payment protocol of one request: verify reserves, settle submits once and records what came of it.

    Between two calls that wait for someone else, any number of steps of other requests, of reconciliation, of
    cleanup and of a restarted process may happen: `Others` allows whatever leaves the world in order and undoes
    nothing, and every step made here is shown to be of that kind. */
module DurablePayment {
  import opened Wrappers
  import opened Texts
  import opened PaymentStore
  import opened PaymentWorld

  // ---------------------------------------------------------------- replies

  datatype ReplyStatus = StatusSuccess | StatusPending | StatusTimeout | StatusFailed | StatusOther

  /** The reply to `settle`; `clean` says that it carries no error reason or message. */
  datatype SettleReply = SettleReply(transaction: string, success: bool, status: ReplyStatus, network: nat,
                                     payer: Option<nat>, clean: bool)

  /** The reply to a status query: any field may be missing. */
  datatype StatusReply = Malformed
                       | StatusReply(success: Option<bool>, status: Option<ReplyStatus>, transaction: Option<string>,
                                     network: Option<nat>, payer: Option<nat>, clean: bool, notFound: bool)

  datatype Classification = NotStarted | InvalidResponse | IdentityMismatch | ProviderError | TransientError
                          | Succeeded | StillPending | HasFailed | NotFound

  /** What came of one status query: a reply, or a call that failed, in passing or for good. */
  datatype Said = Replied(v: StatusReply) | CallFailed(passing: bool)

  predicate StatusIdentityMatches(v: StatusReply, terms: Terms, hash: string)
    requires v.StatusReply?
  {
    && v.transaction.Some? && IsHash(v.transaction.value) && Lower(v.transaction.value) == Lower(hash)
    && v.network == Some(terms.network) && v.payer == Some(terms.payer)
  }

  /** The reply names nothing at all, or this hash, this network and this payer. */
  ghost predicate FitsPayment(v: StatusReply, terms: Terms, hash: string)
    requires v.StatusReply?
  {
    || (v.transaction.None? && v.network.None? && v.payer.None?)
    || (v.transaction.Some? && IsHash(v.transaction.value) && Lower(v.transaction.value) == Lower(hash) &&
        v.network == Some(terms.network) && v.payer == Some(terms.payer))
  }

  ghost predicate ReportsSuccess(v: StatusReply, terms: Terms, hash: string) {
    && v.StatusReply? && FitsPayment(v, terms, hash)
    && v.success == Some(true) && v.status == Some(StatusSuccess) && v.clean
  }

  ghost predicate ReportsPending(v: StatusReply, terms: Terms, hash: string) {
    && v.StatusReply? && FitsPayment(v, terms, hash)
    && v.success == Some(true) && v.status == Some(StatusPending) && v.clean
  }

  ghost predicate ReportsFailure(v: StatusReply, terms: Terms, hash: string) {
    && v.StatusReply? && FitsPayment(v, terms, hash)
    && v.success == Some(false) && v.status == Some(StatusFailed)
  }

  ghost predicate ReportsNotFound(v: StatusReply) {
    && v.StatusReply? && v.transaction.None? && v.network.None? && v.payer.None?
    && v.success == Some(false) && v.status.None? && v.notFound
  }

  function ClassifySettleStatus(v: StatusReply, terms: Terms, hash: string): (c: Classification)
    ensures c == Succeeded <==> ReportsSuccess(v, terms, hash)
    ensures c == StillPending <==> ReportsPending(v, terms, hash)
    ensures c == HasFailed <==> ReportsFailure(v, terms, hash)
    ensures c == NotFound <==> ReportsNotFound(v)
    ensures c == IdentityMismatch <==> v.StatusReply? && !FitsPayment(v, terms, hash)
    ensures c == ProviderError ==> v.StatusReply? && v.success == Some(true) && !v.clean
    ensures c != NotStarted && c != TransientError
  {
    if v.Malformed? then InvalidResponse
    else if (v.transaction.Some? || v.network.Some? || v.payer.Some?) && !StatusIdentityMatches(v, terms, hash) then
      IdentityMismatch
    else if v.success == Some(true) && (v.status == Some(StatusSuccess) || v.status == Some(StatusPending)) then
      if !v.clean then ProviderError else if v.status == Some(StatusSuccess) then Succeeded else StillPending
    else if v.success == Some(false) && v.status == Some(StatusFailed) then HasFailed
    else if v.success == Some(false) && v.status.None? && v.notFound && v.transaction.None? && v.network.None? &&
      v.payer.None?
    then NotFound
    else InvalidResponse
  }

  function ReportedHash(reply: SettleReply): Option<string> {
    if IsHash(reply.transaction) then Some(reply.transaction) else None
  }

  /** The facilitator claims a payment of these terms. */
  ghost predicate Claimed(reply: SettleReply, terms: Terms) {
    && reply.success && IsHash(reply.transaction) && reply.network == terms.network
    && reply.payer == Some(terms.payer) && reply.clean
  }

  ghost predicate Usable(reply: SettleReply, terms: Terms) {
    Claimed(reply, terms) && reply.status in {StatusSuccess, StatusPending, StatusTimeout}
  }

  // ---------------------------------------------------------------- the polling of the status

  /** What the answer to a query that arrives at `at` amounts to; a reply after the deadline counts for nothing. */
  ghost predicate Concluded(c: Classification, s: Said, terms: Terms, hash: string, at: nat, deadline: nat) {
    match s
    case CallFailed(passing) => c == (if passing then TransientError else ProviderError)
    case Replied(v) =>
      if at > deadline then c == TransientError
      else
        && (c == Succeeded <==> ReportsSuccess(v, terms, hash))
        && (c == StillPending <==> ReportsPending(v, terms, hash))
        && (c == NotFound <==> ReportsNotFound(v))
        && c != TransientError && c != NotStarted
  }

  /** An answer on time that leaves it open whether the payment was settled. */
  ghost predicate Undecided(s: Said, terms: Terms, hash: string) {
    match s
    case CallFailed(passing) => passing
    case Replied(v) => ReportsPending(v, terms, hash) || ReportsNotFound(v)
  }

  /** An answer after which the query is repeated while there is time. */
  ghost predicate Repeated(s: Said, terms: Terms, hash: string, at: nat, deadline: nat) {
    Undecided(s, terms, hash) || (s.Replied? && at > deadline)
  }

  /** The first n answers leave it open, or came too late. */
  ghost predicate AllRepeated(said: nat -> Said, terms: Terms, hash: string, at: seq<nat>, n: int, deadline: nat) {
    n <= |at| && forall i | 0 <= i < n :: Repeated(said(i), terms, hash, at[i], deadline)
  }

  /** c is what the last answer amounts to. */
  ghost predicate LastConcluded(c: Classification, said: nat -> Said, terms: Terms, hash: string, at: seq<nat>,
                                deadline: nat)
  {
    if at == [] then c == NotStarted
    else Concluded(c, said(|at| - 1), terms, hash, at[|at| - 1], deadline)
  }

  ghost predicate SaidSuccess(s: Said, terms: Terms, hash: string) {
    s.Replied? && ReportsSuccess(s.v, terms, hash)
  }

  function TwoTo(n: nat): (p: nat)
    ensures p > 0
  {
    if n == 0 then 1 else 2 * TwoTo(n - 1)
  }

  /** The wait after so many attempts, in milliseconds. */
  function Backoff(attempts: nat): nat
    requires attempts > 0
  {
    50 * TwoTo(if attempts - 1 < 4 then attempts - 1 else 4)
  }

  /** The waits before query k, if nothing cuts them short. */
  ghost function Waited(k: nat): nat {
    if k == 0 then 0 else Waited(k - 1) + Backoff(k)
  }

  lemma {:induction false} WaitedIs(k: nat)
    ensures k <= 4 ==> Waited(k) == [0, 50, 150, 350, 750][k]
    ensures k >= 4 ==> Waited(k) == 750 + 800 * (k - 4)
  {
    assert TwoTo(1) == 2 && TwoTo(2) == 4 && TwoTo(3) == 8 && TwoTo(4) == 16;
    if k > 0 { WaitedIs(k - 1); }
  }

  lemma {:induction false} WaitedGrows(j: nat, k: nat)
    requires j <= k
    ensures Waited(j) <= Waited(k)
    decreases k
  {
    if j < k { WaitedGrows(j, k - 1); }
  }

  ghost predicate AllUndecided(said: nat -> Said, terms: Terms, hash: string, n: nat) {
    forall i | 0 <= i < n :: Undecided(said(i), terms, hash)
  }

  /** Nothing but the waits has moved the clock. */
  ghost predicate InStep(start: nat, now: nat, asked: nat, deadline: nat) {
    now == (if start + Waited(asked) < deadline then start + Waited(asked) else deadline)
  }

  /** Query k reports success, all queries before it leave it open, and the waits before it fit into the budget. */
  ghost predicate ResolvesAt(said: nat -> Said, terms: Terms, hash: string, budget: nat, k: nat) {
    && Waited(k) < budget && SaidSuccess(said(k), terms, hash)
    && AllUndecided(said, terms, hash, k)
  }

  /** Some query resolves the payment within the budget. */
  ghost predicate ResolvesWithin(said: nat -> Said, terms: Terms, hash: string, budget: nat) {
    exists k: nat :: ResolvesAt(said, terms, hash, budget, k)
  }

  /** The budget is not used up before the query that resolves the payment was made. */
  lemma NotExhausted(said: nat -> Said, terms: Terms, hash: string, budget: nat, start: nat, now: nat, asked: nat)
    requires InStep(start, now, asked, start + budget) && now >= start + budget
    requires AllUndecided(said, terms, hash, asked)
    ensures !ResolvesWithin(said, terms, hash, budget)
  {
    forall k: nat ensures !ResolvesAt(said, terms, hash, budget, k) {
      if ResolvesAt(said, terms, hash, budget, k) {
        assert k < asked ==> Undecided(said(k), terms, hash);
        WaitedGrows(asked, if k < asked then asked else k);
      }
    }
  }

  /** The first answer on time that decides resolves the payment or settles that nothing does. */
  lemma FirstDecides(c: Classification, said: nat -> Said, terms: Terms, hash: string, budget: nat, asked: nat,
                     at: nat, deadline: nat)
    requires AllUndecided(said, terms, hash, asked) && !Undecided(said(asked), terms, hash) && Waited(asked) < budget
    requires Concluded(c, said(asked), terms, hash, at, deadline) && at <= deadline
    ensures c == Succeeded <==> ResolvesWithin(said, terms, hash, budget)
  {
    if k: nat :| ResolvesAt(said, terms, hash, budget, k) {
      assert k < asked ==> Undecided(said(k), terms, hash);
      assert k > asked ==> Undecided(said(asked), terms, hash);
    }
    if c == Succeeded { assert ResolvesAt(said, terms, hash, budget, asked); }
  }

  /** After so many queries, none of them late and all but the last undecided, c is what the last says. */
  ghost predicate OnTime(said: nat -> Said, terms: Terms, hash: string, budget: nat, asked: nat, c: Classification) {
    if asked == 0 then c == NotStarted
    else Waited(asked - 1) < budget && AllUndecided(said, terms, hash, asked - 1) &&
         Concluded(c, said(asked - 1), terms, hash, 0, 0)
  }

  /** One more query on time. */
  lemma AskedOn(said: nat -> Said, terms: Terms, hash: string, budget: nat, asked: nat, before: Classification,
                c: Classification, start: nat, now: nat)
    requires OnTime(said, terms, hash, budget, asked, before) && StillOpen(said, terms, hash, asked)
    requires InStep(start, now, asked, start + budget) && now < start + budget
    requires Concluded(c, said(asked), terms, hash, now, start + budget)
    ensures OnTime(said, terms, hash, budget, asked + 1, c)
  {
  }

  /** One more wait. */
  lemma WaitedOn(start: nat, now: nat, asked: nat, deadline: nat)
    requires InStep(start, now, asked, deadline) && now < deadline
    ensures InStep(start, now + if Backoff(asked + 1) < deadline - now then Backoff(asked + 1) else deadline - now,
                   asked + 1, deadline)
  {
  }

  /** Nothing said so far has ended the polling. */
  ghost predicate Polling(c: Classification, said: nat -> Said, terms: Terms, hash: string, at: seq<nat>,
                          deadline: nat)
  {
    LastConcluded(c, said, terms, hash, at, deadline) && AllRepeated(said, terms, hash, at, |at|, deadline)
  }

  /** After one more answer the polling goes on exactly if it is one of three classes. */
  lemma AnsweredOn(before: Classification, c: Classification, said: nat -> Said, terms: Terms, hash: string,
                   at: seq<nat>, now: nat, deadline: nat)
    requires Polling(before, said, terms, hash, at, deadline)
    requires Concluded(c, said(|at|), terms, hash, now, deadline)
    ensures AllRepeated(said, terms, hash, at + [now], |at|, deadline)
    ensures LastConcluded(c, said, terms, hash, at + [now], deadline)
    ensures c == TransientError || c == StillPending || c == NotFound <==>
              Repeated(said(|at|), terms, hash, now, deadline)
    ensures Repeated(said(|at|), terms, hash, now, deadline) <==>
              Polling(c, said, terms, hash, at + [now], deadline)
  {
    var more := at + [now];
    forall i | 0 <= i < |at| ensures Repeated(said(i), terms, hash, more[i], deadline) {
      assert more[i] == at[i];
    }
    assert more[|at|] == now;
  }

  ghost predicate StillOpen(said: nat -> Said, terms: Terms, hash: string, asked: nat) {
    asked == 0 || Undecided(said(asked - 1), terms, hash)
  }

  lemma OnTimeMeans(said: nat -> Said, terms: Terms, hash: string, budget: nat, asked: nat, c: Classification,
                    start: nat, now: nat)
    requires OnTime(said, terms, hash, budget, asked, c)
    requires StillOpen(said, terms, hash, asked) ==>
               InStep(start, now, asked, start + budget) && now >= start + budget
    ensures c == Succeeded <==> ResolvesWithin(said, terms, hash, budget)
    ensures c == TransientError <==> asked > 0 && said(asked - 1) == CallFailed(true)
  {
    if StillOpen(said, terms, hash, asked) {
      NotExhausted(said, terms, hash, budget, start, now, asked);
    } else {
      FirstDecides(c, said, terms, hash, budget, asked - 1, 0, 0);
    }
  }

  /** The facilitator claims a payment of these terms and reports in time that it is settled, at once or when it is
      asked for the status. */
  ghost predicate SettlesInTime(reply: Option<SettleReply>, said: nat -> Said, terms: Terms, budget: nat) {
    && reply.Some? && Usable(reply.value, terms)
    && (reply.value.status != StatusSuccess ==>
          ResolvesWithin(said, terms, reply.value.transaction, budget))
  }

  // ---------------------------------------------------------------- the history of a run

  ghost predicate PairKept(trace: seq<World>, i: nat, j: nat)
    requires i < |trace| && j < |trace|
  {
    i <= j ==> WorldOk(trace[j]) && Kept(trace[i], trace[j])
  }

  /** Every state is in order, and every later state keeps every earlier one. */
  ghost predicate History(trace: seq<World>) {
    forall i, j | 0 <= i < |trace| && 0 <= j < |trace| :: PairKept(trace, i, j)
  }

  lemma HistoryOn(trace: seq<World>, w: World)
    requires |trace| > 0 && History(trace) && WorldOk(w) && Kept(trace[|trace| - 1], w)
    ensures History(trace + [w])
  {
    var longer := trace + [w];
    var n := |trace|;
    forall i, j | 0 <= i < |longer| && 0 <= j < |longer| ensures PairKept(longer, i, j) {
      if i < n && j < n {
        assert PairKept(trace, i, j);
      } else if i < n {
        assert PairKept(trace, i, n - 1);
        KeptOn(trace[i], trace[n - 1], w);
      } else if j == n {
        KeptSelf(w);
      }
    }
  }

  predicate Later(now: nat, next: nat, strictly: bool) {
    now < next || (now == next && !strictly)
  }

  /** The row was read at instant `since` of the run. */
  ghost predicate ReadAt(record: Payment, trace: seq<World>, since: nat) {
    since < |trace| && record.id in trace[since].rows && trace[since].rows[record.id] == record
  }

  // ---------------------------------------------------------------- the server

  class Server {
    const store: Store
    var removed: map<Id, Removal>
    /** The settle calls that were let through: every call the facilitator received is among them. */
    var calls: seq<Call>
    /** What the chain has confirmed so far. */
    var answers: set<Answer>
    ghost var trace: seq<World>
    /** The clock moves between any two writes. */
    const advancing: bool
    /** Nobody else acts, no call fails, and the chain confirms what it is asked about. */
    const quiet: bool

    function Now(): World
      reads this, store
    {
      World(store.rows, store.now, store.issued, removed, calls, answers)
    }

    ghost predicate Sound()
      reads this, store
    {
      |trace| > 0 && trace[|trace| - 1] == Now() && History(trace)
    }

    constructor (maxRecords: nat, reliable: bool, advancing: bool, quiet: bool, start: nat)
      ensures Sound() && fresh(store) && store.rows == map[]
      ensures store.reliable == reliable && this.advancing == advancing && this.quiet == quiet
    {
      store := new Store(maxRecords, reliable, start);
      removed, calls, answers := map[], [], {};
      this.advancing, this.quiet := advancing, quiet;
      new;
      trace := [Now()];
      KeptSelf(Now());
      assert PairKept(trace, 0, 0);
    }

    lemma InOrder()
      requires Sound()
      ensures WorldOk(Now()) && store.Valid()
    {
      assert PairKept(trace, |trace| - 1, |trace| - 1);
      RowsApart(Now());
    }

    /** One more instant. */
    twostate lemma Recorded()
      requires old(Sound()) && WorldOk(Now()) && Kept(old(Now()), Now()) && trace == old(trace) + [Now()]
      ensures Sound() && old(trace) <= trace
    {
      HistoryOn(old(trace), Now());
    }

    /** What became of a row that was read earlier. */
    lemma Since(record: Payment, since: nat)
      requires Sound() && ReadAt(record, trace, since)
      ensures record.id in store.rows ==> Follows(record, store.rows[record.id], trace[since].now)
      ensures record.id in store.issued
    {
      assert PairKept(trace, since, |trace| - 1) && PairKept(trace, since, since);
      assert RowOk(trace[since], record.id);
      assert RowKept(trace[since], Now(), record.id);
    }

    /** Everything that others may do meanwhile. */
    method Others()
      requires Sound()
      modifies this`removed, this`calls, this`answers, this`trace, store
      ensures Sound() && old(trace) <= trace && Kept(old(Now()), Now())
      ensures quiet ==> Now() == old(Now())
    {
      InOrder();
      KeptSelf(Now());
      if quiet { return; }
      var next: World :| WorldOk(next) && Kept(Now(), next);
      store.rows, store.now, store.issued := next.rows, next.now, next.issued;
      removed, calls, answers := next.removed, next.calls, next.answers;
      trace := trace + [Now()];
      Recorded();
    }

    method Tick()
      requires Sound()
      modifies this`trace, store`now
      ensures Sound() && old(trace) <= trace && Kept(old(Now()), Now())
      ensures Now() == old(Now()).(now := store.now) && old(store.now) <= store.now &&
                (advancing ==> old(store.now) < store.now)
      ensures quiet ==> store.now <= old(store.now) + 1
    {
      InOrder();
      var now: nat := store.now + 1;
      if !quiet {
        assert Later(store.now, store.now + 1, advancing);
        now :| Later(store.now, now, advancing);
        assert Later(store.now, now, advancing);
      }
      TickStep(Now(), now);
      HistoryOn(trace, Now().(now := now));
      store.now := now;
      trace := trace + [Now()];
    }

    /** A transition that neither submits nor, unless the stored hash is confirmed, settles. */
    method Move(id: Id, from: PaymentState, next: PaymentState, hash: Option<string>, note: Option<Note>)
      returns (r: Result<(), Error>)
      requires Sound() && next != InFlight && (hash.Some? ==> from == InFlight && next != Settled)
      requires next == Settled && id in store.rows ==> ConfirmedRow(Now(), store.rows[id])
      modifies this`trace, store`rows
      ensures Sound() && old(trace) <= trace
      ensures var after := Transitioned(old(store.rows), id, from, next, hash, note, store.now);
              if r.Ok? then after.Ok? && store.rows == after.value && trace == old(trace) + [Now()]
              else Now() == old(Now()) && (store.reliable ==> after.Err?)
    {
      InOrder();
      r := store.Transition(id, from, next, hash, note);
      if r.Ok? {
        TransitionStep(old(Now()), id, from, next, hash, note);
        trace := trace + [Now()];
        Recorded();
      }
    }

    // -------------------------------------------------------------- verify

    /** Nothing stored stands in the way of this reservation. */
    ghost predicate Free(input: Reservation)
      reads store
    {
      !(exists id :: id in store.rows && InTheWay(store.rows[id], input)) && |store.rows| < store.maxRecords
    }

    /** `identity` is what the payload and the request amount to, None if they are not a supported payment. */
    method Reserve(identity: Option<Reservation>) returns (r: Result<Payment, Error>)
      requires Sound()
      modifies this`trace, store
      ensures Sound() && old(trace) <= trace
      ensures r.Ok? ==>
                && ReadAt(r.value, trace, |trace| - 1) && r.value.state == Verified && r.value.id !in old(store.issued)
                        && r.value.txHash.None? && r.value.terms.validBefore > old(store.now)
                        && identity == Some(Reservation(r.value.terms, r.value.key))
      ensures r.Err? ==> store.rows == old(store.rows)
      ensures store.reliable && identity.Some? && identity.value.terms.validBefore > old(store.now) &&
                old(Free(identity.value)) ==>
                r.Ok?
      ensures quiet ==> store.now <= old(store.now) + 1
    {
      InOrder();
      if identity.None? || identity.value.terms.validBefore <= store.now { return Err(IdentityUnsupported); }
      Tick();
      r := ReserveNow(identity.value);
    }

    method Insert(input: Reservation) returns (r: Result<Payment, Error>)
      requires store.Valid()
      modifies store`rows, store`issued
      ensures r.Ok? ==> && !Blocked(Released(old(store.rows), input.key), input) && r.value.id !in old(store.issued)
                        && r.value == NewRow(r.value.id, input, store.now)
                        && Now() == WithReservation(old(Now()), input, r.value.id)
      ensures r.Err? ==> store.rows == old(store.rows) && store.issued == old(store.issued)
      ensures store.reliable && old(Free(input)) ==> r.Ok?
    {
      r := store.Reserve(input);
    }

    method ReserveNow(input: Reservation) returns (r: Result<Payment, Error>)
      requires Sound()
      modifies this`trace, store`rows, store`issued
      ensures Sound() && old(trace) <= trace
      ensures r.Ok? ==>
                && ReadAt(r.value, trace, |trace| - 1) && r.value.state == Verified && r.value.id !in old(store.issued)
                        && r.value.txHash.None?
                        && input == Reservation(r.value.terms, r.value.key)
      ensures r.Err? ==> store.rows == old(store.rows)
      ensures store.reliable && old(Free(input)) ==> r.Ok?
    {
      InOrder();
      ghost var before := Now();
      var record :- Insert(input);
      ReserveStep(before, input, record.id);
      HistoryOn(trace, Now());
      trace := trace + [Now()];
      r := Ok(record);
    }

    /** `answer` is what the facilitator says: None if the call fails, else whether the payment is valid, without any
        reason against it. Ok(None): it does not accept the payment, and the payment is not known here either. */
    method Verify(answer: Option<bool>, identity: Option<Reservation>, fingerprint: Option<nat>)
      returns (r: Result<Option<Payment>, Error>)
      requires Sound()
      modifies this`removed, this`calls, this`answers, this`trace, store
      ensures Sound() && old(trace) <= trace
      ensures r.Ok? && r.value.Some? ==> && ReadAt(r.value.value, trace, |trace| - 1) && r.value.value.state == Verified
                                         && r.value.value.txHash.None?
                                         && identity == Some(Reservation(r.value.value.terms, r.value.value.key))
                                         && r.value.value.terms.validBefore > old(store.now)
      ensures r.Ok? ==> answer.Some? && (answer.value <==> r.value.Some?)
      ensures r == Ok(None) && fingerprint.Some? ==>
                forall id | id in store.rows :: store.rows[id].terms.payment != fingerprint.value
      ensures store.reliable && answer == Some(false) ==>
                r == if fingerprint.Some? && exists id :: id in store.rows &&
                                                          store.rows[id].terms.payment == fingerprint.value
                     then Err(AlreadyReserved) else Ok(None)
      ensures quiet && store.reliable && answer == Some(true) && identity.Some? &&
                identity.value.terms.validBefore > old(store.now) && old(Free(identity.value)) ==>
                r.Ok?
      ensures quiet ==> store.now <= old(store.now) + 1
    {
      Others();
      if answer.None? { return Err(ProviderFailed); }
      if !answer.value {
        if fingerprint.Some? {
          var known :- store.FindPayment(fingerprint.value);
          if known { return Err(AlreadyReserved); }
        }
        return Ok(None);
      }
      var record :- Reserve(identity);
      r := Ok(Some(record));
    }

    // -------------------------------------------------------------- settle

    /** The request is still the one that was reserved, and still in time. */
    predicate StillValid(record: Payment, identity: Option<Reservation>)
      reads store
    {
      identity == Some(Reservation(record.terms, record.key)) && identity.value.terms.validBefore > store.now
    }

    /** The row goes from Verified to InFlight, and with nothing in between the facilitator is called. */
    method Submit(record: Payment, identity: Option<Reservation>, ghost since: nat) returns (r: Result<(), Error>)
      requires Sound() && ReadAt(record, trace, since)
      modifies this`calls, this`trace, store`rows, store`now
      ensures Sound() && old(trace) <= trace
      ensures r.Ok? ==>
                && record.id in old(store.rows) && store.rows == InFlightRows(old(store.rows), record.id, store.now)
                        && calls == old(calls) + [Call(record.id, record.terms.payment, record.terms.validBefore,
                                                       store.now)]
      ensures r.Ok? ==> old(StillValid(record, identity))
      ensures store.reliable && old(StillValid(record, identity)) && VerifiedIn(old(store.rows), record.id) ==> r.Ok?
      ensures r.Err? ==> calls == old(calls) && store.rows == old(store.rows) && r.error != ReconciliationRequired
    {
      InOrder();
      if !StillValid(record, identity) { return Err(IdentityUnsupported); }
      ghost var checkedAt := store.now;
      Tick();
      Since(record, since);
      r := SubmitNow(record, checkedAt);
    }

    method SubmitNow(record: Payment, ghost checkedAt: nat) returns (r: Result<(), Error>)
      requires Sound() && (record.id in store.rows ==> store.rows[record.id].terms == record.terms)
      requires checkedAt <= store.now && WorldOk(Now().(now := checkedAt)) && record.terms.validBefore > checkedAt
      modifies this`calls, this`trace, store`rows
      ensures Sound() && old(trace) <= trace
      ensures r.Ok? ==>
                && record.id in old(store.rows) && store.rows == InFlightRows(old(store.rows), record.id, store.now)
                        && calls == old(calls) + [Call(record.id, record.terms.payment, record.terms.validBefore,
                                                       store.now)]
      ensures r.Err? ==> calls == old(calls) && store.rows == old(store.rows) && r.error != ReconciliationRequired
      ensures store.reliable && VerifiedIn(old(store.rows), record.id) ==> r.Ok?
    {
      InOrder();
      var _ :- store.Transition(record.id, Verified, InFlight, None, None);
      SubmissionStep(old(Now()), record.id, checkedAt);
      calls := calls + [Call(record.id, record.terms.payment, record.terms.validBefore, store.now)];
      trace := trace + [Now()];
      Recorded();
      r := Ok(());
    }

    /** The hash that the facilitator reports is stored before anything else is done with the reply. */
    method Checkpoint(record: Payment, hash: string) returns (r: Result<(), Error>)
      requires Sound()
      modifies this`trace, store`rows
      ensures Sound() && old(trace) <= trace
      ensures r.Ok? ==>
                Checkpointed(old(store.rows), record.id, record.terms.payment, hash, store.now) == Ok(store.rows)
      ensures r.Err? ==> Now() == old(Now())
      ensures store.reliable && AwaitsHash(old(store.rows), record, hash) ==> r.Ok?
    {
      InOrder();
      var _ :- store.CheckpointHash(record.id, record.terms.payment, hash);
      CheckpointStep(old(Now()), record.id, record.terms.payment, hash);
      trace := trace + [Now()];
      Recorded();
      r := Ok(());
    }

    /** Asks the chain whether the stored hash is this payment's transfer. */
    method Confirm(record: Payment) returns (r: Result<bool, Error>)
      requires Sound() && record.txHash.Some?
      modifies this`removed, this`calls, this`answers, this`trace, store
      ensures Sound() && old(trace) <= trace
      ensures r == Ok(true) ==> Answer(record.terms.payment, Lower(record.txHash.value)) in answers
      ensures quiet ==> r == Ok(true) && store.rows == old(store.rows) && store.now == old(store.now)
    {
      Others();
      var confirmed := true;
      if !quiet {
        if * { return Err(ProviderFailed); }
        confirmed := *;
      }
      if confirmed {
        InOrder();
        var answer := Answer(record.terms.payment, Lower(record.txHash.value));
        AnswerStep(Now(), answer);
        HistoryOn(trace, Now().(answers := answers + {answer}));
        answers := answers + {answer};
        trace := trace + [Now()];
      }
      r := Ok(confirmed);
    }

    /** Waits until the timer fires, which is not before its time. */
    method Wait(ms: nat)
      requires Sound() && ms > 0
      modifies this`removed, this`calls, this`answers, this`trace, store
      ensures Sound() && old(trace) <= trace && old(store.now) + ms <= store.now
      ensures quiet ==> store.rows == old(store.rows) && store.now == old(store.now) + ms
    {
      Others();
      InOrder();
      var now: nat := store.now + ms;
      if !quiet {
        assert Later(store.now + ms, store.now + ms, false);
        now :| Later(store.now + ms, now, false);
        assert Later(store.now + ms, now, false);
      }
      TickStep(Now(), now);
      HistoryOn(trace, Now().(now := now));
      store.now := now;
      trace := trace + [Now()];
    }

    /** The wait after so many attempts, cut short at the deadline. */
    method Pause(attempts: nat, deadline: nat, ghost start: nat)
      requires Sound() && attempts > 0 && store.now < deadline
      modifies this`removed, this`calls, this`answers, this`trace, store
      ensures Sound() && old(trace) <= trace && old(store.now) < store.now
      ensures quiet ==> store.rows == old(store.rows)
      ensures quiet && InStep(start, old(store.now), attempts - 1, deadline) ==>
                InStep(start, store.now, attempts, deadline)
    {
      ghost var now := store.now;
      var remaining := deadline - store.now;
      Wait(if Backoff(attempts) < remaining then Backoff(attempts) else remaining);
      if quiet && InStep(start, now, attempts - 1, deadline) { WaitedOn(start, now, attempts - 1, deadline); }
    }

    /** One query; `said` is what comes of it. */
    method AskStatus(record: Payment, hash: string, deadline: nat, said: Said) returns (c: Classification)
      requires Sound()
      modifies this`removed, this`calls, this`answers, this`trace, store
      ensures Sound() && old(trace) <= trace && old(store.now) <= store.now
      ensures Concluded(c, said, record.terms, hash, store.now, deadline)
      ensures quiet ==> store.rows == old(store.rows) && store.now == old(store.now)
    {
      Others();
      match said
      case CallFailed(passing) => c := if passing then TransientError else ProviderError;
      case Replied(v) =>
        c := ClassifySettleStatus(v, record.terms, hash);
        if store.now > deadline { c := TransientError; }
    }

    /** Queries and waits in turn until the status is known or the deadline has come. */
    method PollUntil(record: Payment, hash: string, deadline: nat, said: nat -> Said, ghost budget: nat)
      returns (c: Classification, attempts: nat, ghost at: seq<nat>)
      requires Sound() && deadline == store.now + budget
      modifies this`removed, this`calls, this`answers, this`trace, store
      ensures Sound() && old(trace) <= trace && attempts == |at|
      ensures AllRepeated(said, record.terms, hash, at, attempts - 1, deadline)
      ensures LastConcluded(c, said, record.terms, hash, at, deadline)
      ensures Polling(c, said, record.terms, hash, at, deadline) ==> store.now >= deadline
      ensures quiet ==> store.rows == old(store.rows) && OnTime(said, record.terms, hash, budget, attempts, c)
      ensures quiet && StillOpen(said, record.terms, hash, attempts) ==>
                InStep(old(store.now), store.now, attempts, deadline) && store.now >= deadline
    {
      c, attempts, at := NotStarted, 0, [];
      while store.now < deadline
        invariant Sound() && old(trace) <= trace && attempts == |at|
        invariant Polling(c, said, record.terms, hash, at, deadline)
        invariant quiet ==> && store.rows == old(store.rows) && OnTime(said, record.terms, hash, budget, attempts, c)
                            && StillOpen(said, record.terms, hash, attempts)
                            && InStep(old(store.now), store.now, attempts, deadline)
        decreases deadline - store.now
      {
        ghost var asked, now, before := at, store.now, c;
        attempts := attempts + 1;
        c := AskStatus(record, hash, deadline, said(attempts - 1));
        at := asked + [store.now];
        AnsweredOn(before, c, said, record.terms, hash, asked, store.now, deadline);
        if quiet { AskedOn(said, record.terms, hash, budget, |asked|, before, c, deadline - budget, now); }
        if c != TransientError {
          if c == Succeeded { return; }
          if c != StillPending && c != NotFound { return; }
        }
        if store.now >= deadline { return; }
        Pause(attempts, deadline, deadline - budget);
      }
    }

    /** Asks for the status until it is known or the budget is spent; `said` is what comes of each query, and `at` says
        when. */
    method PollSettleStatus(record: Payment, hash: string, budget: nat, said: nat -> Said)
      returns (c: Classification, attempts: nat, ghost at: seq<nat>)
      requires Sound()
      modifies this`removed, this`calls, this`answers, this`trace, store
      ensures Sound() && old(trace) <= trace && attempts == |at|
      ensures AllRepeated(said, record.terms, hash, at, attempts - 1, old(store.now) + budget)
      ensures LastConcluded(c, said, record.terms, hash, at, old(store.now) + budget)
      ensures Polling(c, said, record.terms, hash, at, old(store.now) + budget) ==>
                store.now >= old(store.now) + budget
      ensures quiet ==> store.rows == old(store.rows) && (attempts > 0 ==> Waited(attempts - 1) < budget)
      ensures quiet ==> (c == Succeeded <==> ResolvesWithin(said, record.terms, hash, budget))
      ensures quiet ==> (c == TransientError <==> attempts > 0 && said(attempts - 1) == CallFailed(true))
    {
      ghost var start := store.now;
      c, attempts, at := PollUntil(record, hash, store.now + budget, said, budget);
      if quiet { OnTimeMeans(said, record.terms, hash, budget, attempts, c, start, store.now); }
    }

    /** Marks the row of a submission whose outcome is not known; the caller then reports that. */
    method Unconfirmed(id: Id, note: Note) returns (r: Result<(), Error>)
      requires Sound()
      modifies this`trace, store`rows
      ensures Sound() && old(trace) <= trace && r.Err?
      ensures r.error == ReconciliationRequired ==> LeftUnknown(store.rows, id, note)
      ensures store.reliable && id in old(store.rows) && old(store.rows)[id].state == InFlight ==>
                r.error == ReconciliationRequired
    {
      var moved := Move(id, InFlight, Unknown, None, Some(note));
      r := Err(if moved.Ok? then ReconciliationRequired else StateConflict);
    }

    /** Confirms the stored hash on chain and, if it holds, settles. */
    method ConfirmAndSettle(id: Id, persisted: Payment, ghost since: nat) returns (r: Result<(), Error>)
      requires Sound() && ReadAt(persisted, trace, since) && persisted.id == id && persisted.txHash.Some?
      modifies this`removed, this`calls, this`answers, this`trace, store
      ensures Sound() && old(trace) <= trace
      ensures r.Ok? ==>
                SettledByLastStep(trace, id) &&
                  Lower(trace[|trace| - 1].rows[id].txHash.value) == Lower(persisted.txHash.value)
      ensures quiet && store.reliable && persisted.state == InFlight && id in old(store.rows) &&
                old(store.rows)[id] == persisted ==>
                r.Ok?
    {
      var confirmed :- Confirm(persisted);
      if !confirmed {
        r := Unconfirmed(id, SettlementUnconfirmed);
        return;
      }
      Since(persisted, since);
      r := Move(id, InFlight, Settled, None, None);
    }

    /** The settlement is claimed or, after polling, reported as done. */
    method Resolve(record: Payment, reply: SettleReply, said: nat -> Said, budget: nat)
      returns (r: Result<(), Error>, ghost asked: nat)
      requires Sound()
      modifies this`removed, this`calls, this`answers, this`trace, store
      ensures Sound() && old(trace) <= trace
      ensures r.Ok? ==> Usable(reply, record.terms) && BackedUp(reply, record.terms, said, asked)
      ensures quiet && SettlesInTime(Some(reply), said, record.terms, budget) ==>
                r.Ok? && store.rows == old(store.rows)
      ensures quiet && store.reliable && !SettlesInTime(Some(reply), said, record.terms, budget) &&
                InFlightIn(old(store.rows), record.id) ==>
                r.Err? && LeftUnknown(store.rows, record.id, ReasonLeft(said, asked))
    {
      asked := 0;
      if !reply.success || !IsHash(reply.transaction) || reply.network != record.terms.network ||
         reply.payer != Some(record.terms.payer) || !reply.clean ||
         reply.status !in {StatusSuccess, StatusPending, StatusTimeout} {
        r := Unconfirmed(record.id, SettlementUnconfirmed);
        return;
      }
      if reply.status == StatusPending || reply.status == StatusTimeout {
        ghost var at;
        var c, attempts;
        c, attempts, at := PollSettleStatus(record, reply.transaction, budget, said);
        asked := attempts;
        if c != Succeeded {
          r := Unconfirmed(record.id, if c == TransientError then SettlementAmbiguous else SettlementUnconfirmed);
          return;
        }
      }
      r := Ok(());
    }

    /** The row must still hold the reported hash; it is confirmed as stored, not as reported. */
    method SettlePersisted(record: Payment, hash: string) returns (r: Result<(), Error>)
      requires Sound()
      modifies this`removed, this`calls, this`answers, this`trace, store
      ensures Sound() && old(trace) <= trace
      ensures r.Ok? ==> && SettledByLastStep(trace, record.id)
                        && Lower(trace[|trace| - 1].rows[record.id].txHash.value) == Lower(hash)
      ensures quiet && store.reliable && InFlightWith(old(store.rows), record.id, hash) ==> r.Ok?
    {
      var persisted :- store.Get(record.id);
      if persisted.None? || persisted.value.txHash.None? || Lower(persisted.value.txHash.value) != Lower(hash) {
        return Err(StateConflict);
      }
      InOrder();
      r := ConfirmAndSettle(record.id, persisted.value, |trace| - 1);
    }

    /** From the facilitator's reply to the settled row; any error is handled by the caller. */
    method Decide(record: Payment, reply: SettleReply, said: nat -> Said, budget: nat)
      returns (r: Result<(), Error>, ghost asked: nat)
      requires Sound()
      modifies this`removed, this`calls, this`answers, this`trace, store
      ensures Sound() && old(trace) <= trace
      ensures r.Ok? ==> SettledAsReported(trace, record, reply, said, asked)
      ensures quiet && store.reliable && SettlesInTime(Some(reply), said, record.terms, budget) &&
                InFlightWith(old(store.rows), record.id, reply.transaction) ==>
                r.Ok?
      ensures quiet && store.reliable && !SettlesInTime(Some(reply), said, record.terms, budget) &&
                InFlightIn(old(store.rows), record.id) ==>
                r.Err? && LeftUnknown(store.rows, record.id, ReasonLeft(said, asked))
    {
      r, asked := Resolve(record, reply, said, budget);
      if r.Ok? {
        r := SettlePersisted(record, reply.transaction);
      }
    }

    method Follow(record: Payment, reply: SettleReply, said: nat -> Said, budget: nat)
      returns (r: Result<(), Error>, ghost asked: nat)
      requires Sound()
      modifies this`removed, this`calls, this`answers, this`trace, store
      ensures Sound() && old(trace) <= trace
      ensures r.Ok? ==> SettledAsReported(trace, record, reply, said, asked)
      ensures store.reliable && AwaitsHash(old(store.rows), record, reply.transaction) ==>
                HoldsHash(store.rows, record.id, reply.transaction)
      ensures quiet && store.reliable && SettlesInTime(Some(reply), said, record.terms, budget) &&
                AwaitsHash(old(store.rows), record, reply.transaction) ==>
                r.Ok?
      ensures quiet && store.reliable && !SettlesInTime(Some(reply), said, record.terms, budget) &&
                NewlySubmitted(old(store.rows), record) ==>
                r.Err? && LeftUnknown(store.rows, record.id, ReasonLeft(said, asked))
    {
      if ReportedHash(reply).None? {
        r, asked := Decide(record, reply, said, budget);
        return;
      }
      asked := 0;
      r := Checkpoint(record, reply.transaction);
      if r.Err? { return; }
      InOrder();
      ghost var row, k, before := store.rows[record.id], |trace| - 1, trace;
      r, asked := Decide(record, reply, said, budget);
      assert trace[k] == before[k];
      Since(row, k);
    }

    /** Whatever went wrong, a row that is still in flight is marked for reconciliation. */
    method MarkAmbiguous(id: Id, observed: Option<string>)
      requires Sound() && (observed.Some? ==> IsHash(observed.value))
      modifies this`trace, store`rows
      ensures Sound() && old(trace) <= trace
      ensures store.reliable ==> !LeftInFlight(store.rows, id, observed)
      ensures !InFlightIn(old(store.rows), id) ==> store.rows == old(store.rows)
      ensures store.reliable && observed.None? && InFlightIn(old(store.rows), id) ==>
                LeftUnknown(store.rows, id, SettlementAmbiguous)
      ensures observed.Some? && HoldsHash(old(store.rows), id, observed.value) ==>
                HoldsHash(store.rows, id, observed.value)
    {
      var state := store.Get(id);
      if state.Ok? && state.value.Some? && state.value.value.state == InFlight {
        var _ := Move(id, InFlight, Unknown, observed, Some(SettlementAmbiguous));
      }
    }

    /** From the facilitator's answer to the end; whatever goes wrong, the caller is told to reconcile. */
    method Finish(record: Payment, answer: Option<SettleReply>, said: nat -> Said, budget: nat)
      returns (r: Result<(), Error>, ghost asked: nat)
      requires Sound()
      modifies this`removed, this`calls, this`answers, this`trace, store
      ensures Sound() && old(trace) <= trace
      ensures r.Ok? ==> answer.Some? && SettledAsReported(trace, record, answer.value, said, asked)
      ensures r.Err? ==> r.error == ReconciliationRequired
      ensures r.Err? && store.reliable ==> !LeftInFlight(store.rows, record.id, HashIn(answer))
      ensures r.Err? && store.reliable && HashIn(answer).Some? &&
                AwaitsHash(old(store.rows), record, answer.value.transaction) ==>
                HoldsHash(store.rows, record.id, answer.value.transaction)
      ensures quiet && store.reliable && NewlySubmitted(old(store.rows), record) ==>
                SettledIff(r.Ok?, store.rows, record, answer, said, budget, asked)
    {
      r, asked := Err(ProviderFailed), 0;
      if answer.Some? {
        r, asked := Follow(record, answer.value, said, budget);
      }
      if r.Err? {
        MarkAmbiguous(record.id, HashIn(answer));
        r := Err(ReconciliationRequired);
      }
    }

    /** The call is out; its answer arrives at instant `at`. */
    method AwaitAnswer(record: Payment, answer: Option<SettleReply>, said: nat -> Said, budget: nat)
      returns (r: Result<(), Error>, ghost asked: nat, ghost at: nat)
      requires Sound()
      modifies this`removed, this`calls, this`answers, this`trace, store
      ensures Sound() && old(trace) <= trace
      ensures r.Ok? ==> answer.Some? && SettledAsReported(trace, record, answer.value, said, asked)
      ensures r.Err? ==> r.error == ReconciliationRequired
      ensures r.Err? && store.reliable ==> !LeftInFlight(store.rows, record.id, HashIn(answer))
      ensures r.Err? && store.reliable && HashIn(answer).Some? ==>
                && at < |trace| && (AwaitsHash(trace[at].rows, record, answer.value.transaction) ==>
                                      HoldsHash(store.rows, record.id, answer.value.transaction))
      ensures quiet && store.reliable && NewlySubmitted(old(store.rows), record) ==>
                SettledIff(r.Ok?, store.rows, record, answer, said, budget, asked)
    {
      Others();
      at := |trace| - 1;
      ghost var before := trace;
      r, asked := Finish(record, answer, said, budget);
      assert trace[at] == before[at];
    }

    /** Returns normally only if its own last step settled the row, under the hash the facilitator reported for it.
        `answer` is the facilitator's reply, None if the call fails; it arrives at instant `at`. `said` is what comes of
        the status queries, of which `asked` are made. */
    method Settle(record: Option<Payment>, identity: Option<Reservation>, answer: Option<SettleReply>,
                  said: nat -> Said, budget: nat, ghost since: nat)
      returns (r: Result<(), Error>, ghost asked: nat, ghost at: nat)
      requires Sound() && (record.Some? ==> ReadAt(record.value, trace, since))
      modifies this`removed, this`calls, this`answers, this`trace, store
      ensures Sound() && old(trace) <= trace
      ensures r.Ok? ==>
                record.Some? && answer.Some? && SettledAsReported(trace, record.value, answer.value, said, asked)
      ensures r.Ok? ==> identity == Some(Reservation(record.value.terms, record.value.key))
      ensures r == Err(ReconciliationRequired) && store.reliable && record.Some? ==>
                !LeftInFlight(store.rows, record.value.id, HashIn(answer))
      ensures r == Err(ReconciliationRequired) && store.reliable && record.Some? && HashIn(answer).Some? ==>
                && at < |trace| && (AwaitsHash(trace[at].rows, record.value, answer.value.transaction) ==>
                                      HoldsHash(store.rows, record.value.id, answer.value.transaction))
      ensures quiet && store.reliable && record.Some? && old(StillValid(record.value, identity)) &&
                FreshIn(old(store.rows), record.value) ==>
                SettledIff(r.Ok?, store.rows, record.value, answer, said, budget, asked)
    {
      asked, at := 0, 0;
      if record.None? { return Err(NoContext), asked, at; }
      var started := Submit(record.value, identity, since);
      if started.Err? { return Err(started.error), asked, at; }
      if FreshIn(old(store.rows), record.value) { SubmittedIs(old(store.rows), record.value, store.now); }
      r, asked, at := AwaitAnswer(record.value, answer, said, budget);
    }

    /** The end of a request: a reservation that was never submitted is cancelled. */
    method Release(record: Option<Payment>)
      requires Sound()
      modifies this`trace, store`rows
      ensures Sound() && old(trace) <= trace
      ensures store.reliable && record.Some? && record.value.id in store.rows ==>
                store.rows[record.value.id].state != Verified
    {
      if record.None? { return; }
      var row := store.Get(record.value.id);
      if row.Ok? && row.value.Some? && row.value.value.state == Verified {
        var _ := Move(record.value.id, Verified, Cancelled, None, Some(ExecutionIncomplete));
      }
    }

    /** The work is done and paid for; whatever happened, the reservation is not left open. */
    method Conclude(record: Payment, identity: Option<Reservation>, reply: Option<SettleReply>, said: nat -> Said,
                    budget: nat, ghost since: nat)
      returns (paid: bool, ghost k: nat)
      requires Sound() && ReadAt(record, trace, since)
      modifies this`removed, this`calls, this`answers, this`trace, store
      ensures Sound() && old(trace) <= trace
      ensures paid ==> reply.Some? && k >= |old(trace)| - 1 && SettledFor(trace, k, record)
      ensures store.reliable && record.id in store.rows ==> store.rows[record.id].state != Verified
      ensures quiet && store.reliable && old(StillValid(record, identity)) && FreshIn(old(store.rows), record) &&
                SettlesInTime(reply, said, record.terms, budget) ==>
                paid
    {
      ghost var asked, at;
      var settled;
      settled, asked, at := Settle(Some(record), identity, reply, said, budget, since);
      paid, k := settled.Ok?, |trace| - 1;
      if paid { Since(record, since); }
      ghost var before := trace;
      Release(Some(record));
      assert trace[k] == before[k] && (k > 0 ==> trace[k - 1] == before[k - 1]);
    }

    /** The work and, unless it failed, the settlement. */
    method Serve(record: Payment, identity: Option<Reservation>, served: bool, reply: Option<SettleReply>,
                 said: nat -> Said, budget: nat)
      returns (paid: bool, ghost k: nat)
      requires Sound() && ReadAt(record, trace, |trace| - 1) && record.state == Verified
      modifies this`removed, this`calls, this`answers, this`trace, store
      ensures Sound() && old(trace) <= trace
      ensures paid ==> served && reply.Some? && k >= |old(trace)| && PaidFor(trace, k, record.terms)
      ensures quiet && store.reliable && served && old(StillValid(record, identity)) &&
                FreshIn(old(store.rows), record) && SettlesInTime(reply, said, record.terms, budget) ==>
                paid
    {
      paid, k := false, 0;
      ghost var before := trace;
      Others();
      if served {
        paid, k := Conclude(record, identity, reply, said, budget, |before| - 1);
        if paid { PaidLater(before, trace, k, record); }
      } else {
        Release(Some(record));
      }
    }

    /** A paid request from start to end: reserve, do the work, settle unless the work failed, release. `answer` and
        `reply` are what the facilitator says to verify and settle, and `said` what comes of the status queries;
        `served` says that the work was done. */
    method Request(answer: Option<bool>, identity: Option<Reservation>, fingerprint: Option<nat>, served: bool,
                   reply: Option<SettleReply>, said: nat -> Said, budget: nat)
      returns (paid: bool, ghost k: nat)
      requires Sound()
      modifies this`removed, this`calls, this`answers, this`trace, store
      ensures Sound() && old(trace) <= trace
      ensures paid ==> answer == Some(true) && served && reply.Some?
      ensures paid ==> k >= |old(trace)| && identity.Some? && PaidFor(trace, k, identity.value.terms)
      ensures quiet && store.reliable && answer == Some(true) && served && identity.Some? &&
                old(Free(identity.value)) && identity.value.terms.validBefore > old(store.now) + 1 &&
                SettlesInTime(reply, said, identity.value.terms, budget) ==>
                paid
    {
      paid, k := false, 0;
      var verified := Verify(answer, identity, fingerprint);
      if verified.Err? || verified.value.None? { return; }
      paid, k := Serve(verified.value.value, identity, served, reply, said, budget);
    }

    // -------------------------------------------------------------- maintenance

    /** The start of a process after a crash: nothing is in flight any more. */
    method Restart(retention: int) returns (r: Result<(), Error>)
      requires Sound()
      modifies this`removed, this`trace, store`rows
      ensures Sound() && old(trace) <= trace
      ensures r.Ok? ==> forall id | id in store.rows :: !Interrupted(store.rows[id])
    {
      InOrder();
      var recovered :- store.RecoverInterrupted();
      RecoverStep(old(Now()));
      trace := trace + [Now()];
      Recorded();
      r := Cleanup(retention);
    }

    /** Deletes rows; the record of what was deleted follows. */
    method Delete(retention: int) returns (r: Result<set<Id>, Error>)
      requires Sound()
      modifies store`rows
      ensures r.Ok? ==> && r.value <= old(store.rows).Keys && store.rows == old(store.rows) - r.value
                        && WorldOk(Deletion(old(Now()), r.value)) && Kept(old(Now()), Deletion(old(Now()), r.value))
                        && forall id | id in r.value :: Outdated(old(store.rows)[id], retention, store.now)
      ensures r.Err? ==> store.rows == old(store.rows)
    {
      InOrder();
      var rows := store.rows;
      var deleted :- store.Cleanup(retention);
      var gone := rows.Keys - store.rows.Keys;
      CleanedStep(old(Now()), store.rows, gone, retention);
      r := Ok(gone);
    }

    method Cleanup(retention: int) returns (r: Result<(), Error>)
      requires Sound()
      modifies this`removed, this`trace, store`rows
      ensures Sound() && old(trace) <= trace
      ensures exists gone :: gone <= old(store.rows).Keys && store.rows == old(store.rows) - gone &&
                             forall id | id in gone :: Outdated(old(store.rows)[id], retention, store.now)
    {
      var rows := store.rows;
      var deleted := Delete(retention);
      if deleted.Err? {
        assert rows - {} == rows;
        return Err(deleted.error);
      }
      removed := removed + Removals(rows, deleted.value, store.now);
      trace := trace + [Now()];
      Recorded();
      r := Ok(());
    }
  }

  lemma CleanedStep(w: World, rows: Table, gone: set<Id>, retention: int)
    requires WorldOk(w) && Cleaned(w.rows, rows, retention, w.now) && gone == w.rows.Keys - rows.Keys
    ensures rows == w.rows - gone && WorldOk(Deletion(w, gone)) && Kept(w, Deletion(w, gone))
    ensures forall id | id in gone :: Outdated(w.rows[id], retention, w.now)
  {
    forall id | id in gone ensures Outdated(w.rows[id], retention, w.now) {
      assert id in OutdatedIds(w.rows, retention, w.now);
    }
    DeletionStep(w, gone);
  }

  /** Step k of the run took this row from InFlight to Settled. */
  ghost predicate SettledAt(trace: seq<World>, k: nat, id: Id) {
    && 0 < k < |trace| && id in trace[k - 1].rows && trace[k - 1].rows[id].state == InFlight
    && id in trace[k].rows && trace[k].rows[id].state == Settled && trace[k].rows[id].txHash.Some?
  }

  /** Step k settled this very payment. */
  ghost predicate SettledFor(trace: seq<World>, k: nat, record: Payment) {
    SettledAt(trace, k, record.id) && trace[k].rows[record.id].terms == record.terms
  }

  /** A row that was last seen verified was settled later. */
  lemma PaidLater(before: seq<World>, trace: seq<World>, k: nat, record: Payment)
    requires |before| > 0 && before <= trace && ReadAt(record, before, |before| - 1) && record.state == Verified
    requires k >= |before| - 1 && SettledFor(trace, k, record)
    ensures k >= |before| && PaidFor(trace, k, record.terms)
  {
    assert trace[|before| - 1] == before[|before| - 1];
  }

  /** Step k settled a payment of these terms. */
  ghost predicate PaidFor(trace: seq<World>, k: nat, terms: Terms) {
    exists record :: SettledFor(trace, k, record) && record.terms == terms
  }

  ghost predicate SettledByLastStep(trace: seq<World>, id: Id) {
    |trace| > 0 && SettledAt(trace, |trace| - 1, id)
  }

  /** Anything but an immediate success was polled until the reply to the last query reported success. */
  ghost predicate BackedUp(reply: SettleReply, terms: Terms, said: nat -> Said, asked: nat) {
    reply.status != StatusSuccess ==> asked > 0 && SaidSuccess(said(asked - 1), terms, reply.transaction)
  }

  /** The last step settled the row, under the hash the facilitator reported for this very payment. */
  ghost predicate SettledAsReported(trace: seq<World>, record: Payment, reply: SettleReply, said: nat -> Said,
                                    asked: nat)
  {
    && SettledByLastStep(trace, record.id) && Usable(reply, record.terms) && BackedUp(reply, record.terms, said, asked)
    && Lower(trace[|trace| - 1].rows[record.id].txHash.value) == Lower(reply.transaction)
  }

  function HashIn(reply: Option<SettleReply>): (hash: Option<string>)
    ensures hash.Some? ==> IsHash(hash.value)
  {
    if reply.Some? then ReportedHash(reply.value) else None
  }

  function InFlightRows(rows: Table, id: Id, now: nat): Table
    requires id in rows
  {
    rows[id := Moved(rows[id], InFlight, None, None, now)]
  }

  predicate VerifiedIn(rows: Table, id: Id) {
    id in rows && rows[id].state == Verified
  }

  /** The row is the reservation, and nothing has been done with it. */
  predicate FreshIn(rows: Table, record: Payment) {
    record.id in rows && rows[record.id] == record && record.state == Verified && record.txHash.None?
  }

  predicate InFlightIn(rows: Table, id: Id) {
    id in rows && rows[id].state == InFlight
  }

  /** The row of the reservation went in flight, and no hash is known for it. */
  predicate NewlySubmitted(rows: Table, record: Payment) {
    InFlightIn(rows, record.id) && rows[record.id].terms == record.terms && rows[record.id].txHash.None?
  }

  lemma SubmittedIs(rows: Table, record: Payment, now: nat)
    requires FreshIn(rows, record)
    ensures NewlySubmitted(InFlightRows(rows, record.id, now), record)
  {
  }

  /** The row waits for reconciliation, for this reason. */
  predicate LeftUnknown(rows: Table, id: Id, note: Note) {
    id in rows && rows[id].state == Unknown && rows[id].note == Some(note)
  }

  /** Why a reply did not settle the payment: what it said, or the status said, unless the last query failed in
      passing. */
  ghost function ReasonLeft(said: nat -> Said, asked: nat): Note {
    if asked > 0 && said(asked - 1) == CallFailed(true) then SettlementAmbiguous else SettlementUnconfirmed
  }

  /** Settled exactly if the facilitator reports it in time, and otherwise left for reconciliation. */
  ghost predicate SettledIff(settled: bool, rows: Table, record: Payment, answer: Option<SettleReply>,
                             said: nat -> Said, budget: nat, asked: nat)
  {
    if SettlesInTime(answer, said, record.terms, budget) then settled
    else !settled && LeftUnknown(rows, record.id, ReasonFor(answer, said, asked))
  }

  ghost function ReasonFor(answer: Option<SettleReply>, said: nat -> Said, asked: nat): Note {
    if answer.None? then SettlementAmbiguous else ReasonLeft(said, asked)
  }

  predicate InFlightWith(rows: Table, id: Id, hash: string) {
    id in rows && rows[id].state == InFlight && rows[id].txHash.Some? && Lower(rows[id].txHash.value) == Lower(hash)
  }

  /** The payment is in flight and no other hash is known for it. */
  predicate AwaitsHash(rows: Table, record: Payment, hash: string) {
    && IsHash(hash) && record.id in rows && rows[record.id].terms.payment == record.terms.payment
    && rows[record.id].state == InFlight && HashAgrees(Some(hash), rows[record.id].txHash)
  }

  predicate HoldsHash(rows: Table, id: Id, hash: string) {
    id in rows ==> rows[id].txHash.Some? && Lower(rows[id].txHash.value) == Lower(hash)
  }

  predicate LeftInFlight(rows: Table, id: Id, observed: Option<string>) {
    id in rows && rows[id].state == InFlight && HashAgrees(observed, rows[id].txHash)
  }
}
