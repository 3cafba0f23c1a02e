/** Reconciliation of the payments whose outcome is not known, and why none of them waits forever. */
module PaymentReconcile {
  import opened Wrappers
  import opened Sets
  import opened Texts
  import opened Arithmetic
  import opened PaymentStore
  import opened PaymentWorld
  import opened DurablePayment

  datatype Counts = Counts(checked: nat, settled: nat, failed: nat, unresolved: nat)

  datatype Outcome = Done | Rejected | Unresolved

  /** Here, unlike in the polling of a fresh settlement, the reply must name the payment. */
  ghost predicate NamesPayment(v: StatusReply, record: Payment) {
    && v.StatusReply? && v.transaction.Some? && record.txHash.Some?
    && Lower(v.transaction.value) == Lower(record.txHash.value)
    && v.network == Some(record.terms.network) && v.payer == Some(record.terms.payer)
  }

  ghost predicate SaysSettled(v: StatusReply, record: Payment) {
    NamesPayment(v, record) && v.status == Some(StatusSuccess) && v.success == Some(true) && v.clean
  }

  ghost predicate SaysFailed(v: StatusReply, record: Payment) {
    NamesPayment(v, record) && v.status == Some(StatusFailed) && v.success == Some(false)
  }

  function Says(v: StatusReply, record: Payment): (o: Outcome)
    ensures o == Done <==> SaysSettled(v, record)
    ensures o == Rejected <==> SaysFailed(v, record)
  {
    if v.Malformed? || v.transaction.None? || record.txHash.None? then Unresolved
    else
      var matches := Lower(v.transaction.value) == Lower(record.txHash.value) &&
                     v.network == Some(record.terms.network) && v.payer == Some(record.terms.payer);
      if matches && v.status == Some(StatusSuccess) && v.success == Some(true) && v.clean then Done
      else if matches && v.status == Some(StatusFailed) && v.success == Some(false) then Rejected
      else Unresolved
  }

  /** Since `at` the row was resolved, deleted, or stamped again. */
  predicate Touched(rows: Table, id: Id, at: nat) {
    id in rows && rows[id].state == Unknown ==> rows[id].updated >= at
  }

  /** What comes of the query decides, if the chain confirms what the provider says. */
  function Decided(s: Said, record: Payment): Outcome {
    match s case CallFailed(_) => Unresolved case Replied(v) => Says(v, record)
  }

  /** The status and, if the provider claims success, the confirmation. */
  method Ask(server: Server, record: Payment, said: Said, ghost since: nat) returns (r: Result<Outcome, Error>)
    requires server.Sound() && ReadAt(record, server.trace, since) && record.txHash.Some?
    modifies server`removed, server`calls, server`answers, server`trace, server.store
    ensures server.Sound() && old(server.trace) <= server.trace
    ensures r == Ok(Done) ==> Answer(record.terms.payment, Lower(record.txHash.value)) in server.answers
    ensures r.Ok? ==> r.value == Decided(said, record) || r.value == Unresolved
    ensures said.Replied? && Decided(said, record) != Done ==> r == Ok(Decided(said, record))
    ensures server.quiet ==> && server.store.rows == old(server.store.rows)
                             && (said.Replied? ==> r == Ok(Decided(said, record)))
  {
    server.Others();
    match said
    case CallFailed(_) => r := Err(ProviderFailed);
    case Replied(v) =>
      var o := Says(v, record);
      if o == Done {
        var confirmed := server.Confirm(record);
        if confirmed.Err? { return Err(confirmed.error); }
        if !confirmed.value { o := Unresolved; }
      }
      r := Ok(o);
  }

  function NextState(o: Outcome): PaymentState {
    match o case Done => Settled case Rejected => Failed case Unresolved => Unknown
  }

  function NoteFor(o: Outcome): Option<Note> {
    match o case Done => None case Rejected => Some(SettlementFailed) case Unresolved => Some(ReconciliationPending)
  }

  /** The step of the run that resolved the row, or stamped it. */
  ghost predicate ResolvedByLastStep(trace: seq<World>, id: Id, o: Outcome) {
    && |trace| >= 2 && id in trace[|trace| - 2].rows && trace[|trace| - 2].rows[id].state == Unknown
    && id in trace[|trace| - 1].rows && trace[|trace| - 1].rows[id].state == NextState(o)
  }

  /** The row is in this state now, and all others are as they were. */
  ghost predicate OnlyMoved(t: Table, t': Table, id: Id, next: PaymentState) {
    && t'.Keys == t.Keys && id in t && t'[id].state == next
    && forall o | o in t && o != id :: t'[o] == t[o]
  }

  method Write(server: Server, record: Payment, o: Outcome, ghost since: nat, ghost at: nat)
    returns (r: Result<(), Error>)
    requires server.Sound() && ReadAt(record, server.trace, since) && record.txHash.Some? && at <= server.store.now
    requires o == Done ==> Answer(record.terms.payment, Lower(record.txHash.value)) in server.answers
    modifies server`trace, server.store`rows
    ensures server.Sound() && old(server.trace) <= server.trace && server.store.now == old(server.store.now)
    ensures r.Ok? ==> ResolvedByLastStep(server.trace, record.id, o)
    ensures r.Ok? ==> OnlyMoved(old(server.store.rows), server.store.rows, record.id, NextState(o))
    ensures server.store.reliable ==> Touched(server.store.rows, record.id, at)
    ensures server.store.reliable && record.id in old(server.store.rows) &&
              old(server.store.rows)[record.id].state == Unknown ==>
              r.Ok?
  {
    server.Since(record, since);
    r := server.Move(record.id, Unknown, NextState(o), None, NoteFor(o));
  }

  /** One payment. Whatever fails, it is stamped as tried. */
  method CheckOne(server: Server, record: Payment, said: Said, ghost since: nat) returns (o: Outcome)
    requires server.Sound() && ReadAt(record, server.trace, since) && record.txHash.Some?
    modifies server`removed, server`calls, server`answers, server`trace, server.store
    ensures server.Sound() && old(server.trace) <= server.trace
    ensures o != Unresolved ==> ResolvedByLastStep(server.trace, record.id, o)
    ensures o == Done ==> said.Replied? && SaysSettled(said.v, record)
    ensures o == Rejected ==> said.Replied? && SaysFailed(said.v, record)
    ensures server.store.reliable ==> Touched(server.store.rows, record.id, old(server.store.now))
    ensures server.quiet && server.store.reliable && record.id in old(server.store.rows) &&
              old(server.store.rows)[record.id].state == Unknown ==>
              o == Decided(said, record) &&
                OnlyMoved(old(server.store.rows), server.store.rows, record.id, NextState(o))
  {
    ghost var at := server.store.now;
    ghost var first := |server.trace| - 1;
    var asked := Ask(server, record, said, since);
    NotEarlier(server.trace, first);
    if asked.Ok? {
      var written := Write(server, record, asked.value, since, at);
      if written.Ok? { return asked.value; }
    }
    var _ := server.Move(record.id, Unknown, Unknown, None, Some(ReconciliationUnavailable));
    o := Unresolved;
  }

  lemma NotEarlier(trace: seq<World>, i: nat)
    requires History(trace) && i < |trace|
    ensures trace[i].now <= trace[|trace| - 1].now
  {
    assert PairKept(trace, i, |trace| - 1);
  }

  /** A row that was touched stays touched. */
  lemma StaysTouched(trace: seq<World>, i: nat, id: Id, at: nat)
    requires History(trace) && i < |trace| && Touched(trace[i].rows, id, at) && at <= trace[i].now
    requires id in trace[i].issued
    ensures Touched(trace[|trace| - 1].rows, id, at)
  {
    assert PairKept(trace, i, |trace| - 1) && PairKept(trace, i, i);
    var w, w' := trace[i], trace[|trace| - 1];
    if id in w'.rows {
      assert Fresh(w, w', id);
      if id in w.rows { assert RowKept(w, w', id); }
    }
  }

  ghost predicate AllTouched(rows: Table, list: seq<Payment>, n: nat, at: nat) {
    n <= |list| && forall i | 0 <= i < n :: Touched(rows, list[i].id, at)
  }

  lemma AllStayTouched(trace: seq<World>, k: nat, list: seq<Payment>, n: nat, at: nat)
    requires History(trace) && k < |trace| && AllTouched(trace[k].rows, list, n, at) && at <= trace[k].now
    requires forall i | 0 <= i < n :: list[i].id in trace[k].issued
    ensures AllTouched(trace[|trace| - 1].rows, list, n, at)
  {
    forall i | 0 <= i < n ensures Touched(trace[|trace| - 1].rows, list[i].id, at) {
      StaysTouched(trace, k, list[i].id, at);
    }
  }

  ghost predicate ListedAt(list: seq<Payment>, trace: seq<World>, since: nat) {
    forall i | 0 <= i < |list| :: ReadAt(list[i], trace, since) && list[i].txHash.Some?
  }

  /** How many of a list one pass checks, its budget permitting. */
  function Share(limit: int, listed: nat): nat {
    if limit < 0 then 0 else if limit < listed then limit else listed
  }

  ghost predicate Different(list: seq<Payment>) {
    forall i, j | 0 <= i < j < |list| :: list[i].id != list[j].id
  }

  /** The row of payment j is in the state that the reply asks for, if it was its turn, and otherwise as listed. */
  ghost predicate HandledAt(rows: Table, list: seq<Payment>, said: nat -> Said, n: nat, j: nat)
    requires j < |list|
  {
    && list[j].id in rows
    && if j < n then rows[list[j].id].state == NextState(Decided(said(j), list[j])) else rows[list[j].id] == list[j]
  }

  ghost predicate Handled(rows: Table, list: seq<Payment>, said: nat -> Said, n: nat) {
    forall j | 0 <= j < |list| :: HandledAt(rows, list, said, n, j)
  }

  lemma HandledOn(t: Table, t': Table, list: seq<Payment>, said: nat -> Said, i: nat)
    requires i < |list| && Different(list) && Handled(t, list, said, i)
    requires OnlyMoved(t, t', list[i].id, NextState(Decided(said(i), list[i])))
    ensures Handled(t', list, said, i + 1)
  {
    var n := i + 1;
    forall j | 0 <= j < |list| ensures HandledAt(t', list, said, n, j) {
      assert HandledAt(t, list, said, i, j);
    }
  }

  /** How many of the first n replies decide so. */
  ghost function Tally(said: nat -> Said, list: seq<Payment>, n: nat, o: Outcome): nat
    requires n <= |list|
  {
    if n == 0 then 0 else Tally(said, list, n - 1, o) + if Decided(said(n - 1), list[n - 1]) == o then 1 else 0
  }

  /** The counts are those of the replies. */
  ghost predicate Tallied(c: Counts, said: nat -> Said, list: seq<Payment>) {
    && c.checked <= |list| && c.settled == Tally(said, list, c.checked, Done)
    && c.failed == Tally(said, list, c.checked, Rejected) && c.unresolved == Tally(said, list, c.checked, Unresolved)
  }

  function Counted(c: Counts, o: Outcome): Counts {
    match o
    case Done => c.(checked := c.checked + 1, settled := c.settled + 1)
    case Rejected => c.(checked := c.checked + 1, failed := c.failed + 1)
    case Unresolved => c.(checked := c.checked + 1, unresolved := c.unresolved + 1)
  }

  ghost predicate AddsUp(c: Counts) {
    c.checked == c.settled + c.failed + c.unresolved
  }

  /** The pass so far: the counts are those of the replies, and the rows are what the replies ask for. */
  ghost predicate AsTold(c: Counts, rows: Table, said: nat -> Said, list: seq<Payment>) {
    Tallied(c, said, list) && Handled(rows, list, said, c.checked)
  }

  lemma TalliedOn(c: Counts, said: nat -> Said, list: seq<Payment>)
    requires c.checked < |list| && Tallied(c, said, list)
    ensures Tallied(Counted(c, Decided(said(c.checked), list[c.checked])), said, list)
  {
  }

  /** The next payment of the list, the ones before it being touched. */
  method CheckNext(server: Server, list: seq<Payment>, said: nat -> Said, counts: Counts, ghost since: nat,
                   ghost at: nat)
    returns (next: Counts)
    requires server.Sound() && ListedAt(list, server.trace, since) && counts.checked < |list| && AddsUp(counts)
    requires at <= server.store.now
    requires server.store.reliable ==> AllTouched(server.store.rows, list, counts.checked, at)
    modifies server`removed, server`calls, server`answers, server`trace, server.store
    ensures server.Sound() && old(server.trace) <= server.trace && ListedAt(list, server.trace, since)
    ensures next.checked == counts.checked + 1 && AddsUp(next) && at <= server.store.now
    ensures server.store.reliable ==> AllTouched(server.store.rows, list, next.checked, at)
    ensures server.quiet && server.store.reliable && Different(list) && list[counts.checked].state == Unknown &&
              AsTold(counts, old(server.store.rows), said, list) ==>
              AsTold(next, server.store.rows, said, list)
  {
    ghost var before, rows := server.trace, server.store.rows;
    var i := counts.checked;
    AllIssued(server, list, since);
    assert ReadAt(list[i], server.trace, since);
    assert Handled(rows, list, said, i) ==> HandledAt(rows, list, said, i, i);
    var o := CheckOne(server, list[i], said(i), since);
    if server.quiet && server.store.reliable && Different(list) && AsTold(counts, rows, said, list) &&
       list[i].state == Unknown {
      HandledOn(rows, server.store.rows, list, said, i);
      TalliedOn(counts, said, list);
    }
    next := Counted(counts, o);
    assert server.trace[|before| - 1] == before[|before| - 1];
    NotEarlier(server.trace, |before| - 1);
    if server.store.reliable {
      AllStayTouched(server.trace, |before| - 1, list, i, at);
    }
    StillListed(list, before, server.trace, since);
  }

  lemma StillListed(list: seq<Payment>, before: seq<World>, trace: seq<World>, since: nat)
    requires ListedAt(list, before, since) && before <= trace
    ensures ListedAt(list, trace, since)
  {
    forall j | 0 <= j < |list| ensures ReadAt(list[j], trace, since) && list[j].txHash.Some? {
      assert ReadAt(list[j], before, since);
    }
  }

  lemma AllIssued(server: Server, list: seq<Payment>, since: nat)
    requires server.Sound() && ListedAt(list, server.trace, since)
    ensures forall i | 0 <= i < |list| :: list[i].id in server.store.issued
  {
    forall i | 0 <= i < |list| ensures list[i].id in server.store.issued {
      assert ReadAt(list[i], server.trace, since);
      server.Since(list[i], since);
    }
  }

  /** Checks the listed payments in turn until the limit is reached or the time is up. */
  method CheckList(server: Server, list: seq<Payment>, limit: int, said: nat -> Said, budget: Option<nat>,
                   ghost since: nat, start: nat)
    returns (counts: Counts)
    requires server.Sound() && ListedAt(list, server.trace, since) && start <= server.store.now
    requires Different(list) && forall i | 0 <= i < |list| :: list[i].state == Unknown
    modifies server`removed, server`calls, server`answers, server`trace, server.store
    ensures server.Sound() && old(server.trace) <= server.trace && AddsUp(counts)
    ensures counts.checked <= Share(limit, |list|) && (budget == Some(0) ==> counts.checked == 0)
    ensures counts.checked < Share(limit, |list|) ==>
              budget.Some? && server.store.now >= start + budget.value
    ensures server.store.reliable ==> AllTouched(server.store.rows, list, counts.checked, start)
    ensures server.quiet && server.store.reliable && Handled(old(server.store.rows), list, said, 0) ==>
              AsTold(counts, server.store.rows, said, list)
  {
    counts := Counts(0, 0, 0, 0);
    ghost var told := server.quiet && server.store.reliable && Handled(server.store.rows, list, said, 0);
    for i := 0 to |list|
      invariant server.Sound() && old(server.trace) <= server.trace && ListedAt(list, server.trace, since)
      invariant start <= server.store.now && (budget == Some(0) ==> i == 0)
      invariant counts.checked == i && AddsUp(counts) && (i <= limit || i == 0)
      invariant server.store.reliable ==> AllTouched(server.store.rows, list, i, start)
      invariant told ==> AsTold(counts, server.store.rows, said, list)
    {
      if counts.checked >= limit || (budget.Some? && server.store.now >= start + budget.value) { break; }
      counts := CheckNext(server, list, said, counts, since, start);
    }
  }

  /** One pass; `said` is what comes of each query. `budget` None: more time than the pass needs. */
  method ReconcilePayments(server: Server, limit: int, said: nat -> Said, budget: Option<nat>)
    returns (r: Result<Counts, Error>, ghost list: seq<Payment>)
    requires server.Sound()
    modifies server`removed, server`calls, server`answers, server`trace, server.store
    ensures server.Sound() && old(server.trace) <= server.trace
    ensures server.store.reliable ==> r.Ok?
    ensures r.Ok? ==> && FirstOf(list, old(server.store.rows), Waiting(old(server.store.rows), true), LIST)
                      && AddsUp(r.value)
                      && r.value.checked <= Share(limit, |list|) && (budget == Some(0) ==> r.value.checked == 0)
                      && (r.value.checked < Share(limit, |list|) ==>
                          budget.Some? && server.store.now >= old(server.store.now) + budget.value)
                      && (server.store.reliable ==>
                          AllTouched(server.store.rows, list, r.value.checked, old(server.store.now)))
    ensures server.quiet && server.store.reliable ==> AsTold(r.value, server.store.rows, said, list)
  {
    list := [];
    server.InOrder();
    var start := server.store.now;
    var pending := server.store.Pending(LIST, true);
    if pending.Err? { return Err(pending.error), list; }
    list := pending.value;
    FirstAreDifferent(list, server.store.rows, said);
    var counts := CheckList(server, pending.value, limit, said, budget, |server.trace| - 1, start);
    r := Ok(counts);
  }

  lemma FirstAreDifferent(list: seq<Payment>, t: Table, said: nat -> Said)
    requires Keyed(t) && FirstOf(list, t, Waiting(t, true), LIST)
    ensures Different(list) && Handled(t, list, said, 0)
  {
    forall i, j | 0 <= i < j < |list| ensures list[i].id != list[j].id {
      assert Before(list[i], list[j]);
    }
    var n := 0;
    forall j | 0 <= j < |list| ensures HandledAt(t, list, said, n, j) {
      assert t[list[j].id] == list[j];
    }
  }

  // ---------------------------------------------------------------- fairness

  /** The payments that are asked about before this one. */
  function Ahead(rows: Table, x: Payment): set<Id> {
    set o | o in Waiting(rows, true) && o in rows && Before(rows[o], x)
  }

  /** The row is as it was, except perhaps for its idempotency key. */
  predicate Untouched(rows: Table, x: Payment) {
    x.id in rows && rows[x.id] == x.(key := rows[x.id].key)
  }

  /** Nobody joins the queue in front of a row that is left alone. */
  lemma NobodyCutsIn(a: World, b: World, x: Payment, o: Id)
    requires WorldOk(a) && WorldOk(b) && Kept(a, b) && x.updated < a.now && o in Ahead(b.rows, x)
    ensures o in Ahead(a.rows, x)
  {
    assert Fresh(a, b, o);
    if o in a.rows { assert RowKept(a, b, o) && RowOk(a, o); }
  }

  /** What was touched since is not ahead of a row that was left alone. */
  lemma TouchedIsBehind(rows: Table, id: Id, x: Payment, at: nat)
    requires Touched(rows, id, at) && x.updated < at
    ensures id !in Ahead(rows, x)
  {
  }

  lemma Shorter(a: World, b: World, x: Payment, list: seq<Payment>, n: nat)
    requires WorldOk(a) && WorldOk(b) && Kept(a, b) && x.updated < a.now
    requires FirstOf(list, a.rows, Waiting(a.rows, true), LIST) && n <= |list| && AllTouched(b.rows, list, n, a.now)
    requires forall i | 0 <= i < n :: Before(list[i], x)
    ensures |Ahead(b.rows, x)| + n <= |Ahead(a.rows, x)|
  {
    var served := set row | row in list[..n] :: row.id;
    IdsOf(list[..n]);
    forall o | o in Ahead(b.rows, x) ensures o in Ahead(a.rows, x) {
      NobodyCutsIn(a, b, x, o);
    }
    forall o | o in served ensures o in Ahead(a.rows, x) && o !in Ahead(b.rows, x) {
      var i :| 0 <= i < n && list[..n][i].id == o;
      assert list[i].id == o && Before(list[i], x) && Touched(b.rows, list[i].id, a.now);
      TouchedIsBehind(b.rows, o, x, a.now);
    }
    DisjointSizes(Ahead(b.rows, x), served, Ahead(a.rows, x));
  }

  /** A waiting row is on the list, or everything on the list is ahead of it. */
  lemma OnTheListOrBehind(rows: Table, x: Payment, list: seq<Payment>, n: nat)
    requires Keyed(rows) && x.id in Waiting(rows, true) && rows[x.id] == x && n <= |list|
    requires FirstOf(list, rows, Waiting(rows, true), LIST)
    ensures (exists i :: 0 <= i < n && list[i] == x) || forall i | 0 <= i < n :: Before(list[i], x)
  {
    if x in list {
      var j :| 0 <= j < |list| && list[j] == x;
      if j >= n {
        forall i | 0 <= i < n ensures Before(list[i], x) {
          assert Before(list[i], list[j]);
        }
      }
    }
  }

  /** How many rows a pass serves when there are that many. */
  function Serves(limit: int): nat {
    if limit < 1 then 0 else if limit > LIST then LIST else limit
  }

  /** When fewer rows are listed than a pass serves, every waiting row is listed. */
  lemma AllListed(rows: Table, x: Payment, list: seq<Payment>)
    requires Keyed(rows) && x.id in Waiting(rows, true) && rows[x.id] == x
    requires FirstOf(list, rows, Waiting(rows, true), LIST) && |list| < LIST
    ensures x in list
  {
    if x !in list {
      assert forall k | 0 <= k < |list| :: Before(list[k], x);
      var ids := set row | row in list :: row.id;
      IdsOf(list);
      assert ids <= Waiting(rows, true) - {x.id};
      assert |Waiting(rows, true) - {x.id}| == |Waiting(rows, true)| - 1;
      SubsetSize(ids, Waiting(rows, true) - {x.id});
    }
  }

  /** The row is among the first n of the list. */
  ghost predicate Listed(list: seq<Payment>, x: Payment, n: nat) {
    exists i :: 0 <= i < n && i < |list| && list[i] == x
  }

  /** A pass asks about the row, or about as many in front of it as a pass serves. */
  lemma ListedOrBehind(rows: Table, x: Payment, list: seq<Payment>, limit: int)
    requires Keyed(rows) && x.id in Waiting(rows, true) && rows[x.id] == x && limit >= 1
    requires FirstOf(list, rows, Waiting(rows, true), LIST)
    ensures || Listed(list, x, Share(limit, |list|))
            || (Share(limit, |list|) == Serves(limit) && forall i | 0 <= i < Share(limit, |list|) :: Before(list[i], x))
  {
    OnTheListOrBehind(rows, x, list, Share(limit, |list|));
    if |list| < LIST { AllListed(rows, x, list); }
  }

  /** One pass serves the row or brings it `limit` places forward. */
  lemma PassServes(a: World, b: World, x: Payment, list: seq<Payment>, limit: int)
    requires WorldOk(a) && WorldOk(b) && Kept(a, b) && x.updated < a.now && limit >= 1
    requires x.id in Waiting(a.rows, true) && a.rows[x.id] == x
    requires FirstOf(list, a.rows, Waiting(a.rows, true), LIST)
    requires AllTouched(b.rows, list, Share(limit, |list|), a.now)
    ensures !Untouched(b.rows, x) || |Ahead(b.rows, x)| + Serves(limit) <= |Ahead(a.rows, x)|
  {
    RowsApart(a);
    ListedOrBehind(a.rows, x, list, limit);
    if Listed(list, x, Share(limit, |list|)) {
      var i :| 0 <= i < Share(limit, |list|) && i < |list| && list[i] == x;
      assert Touched(b.rows, list[i].id, a.now);
    } else {
      Shorter(a, b, x, list, Share(limit, |list|));
    }
  }

  /** A pass in which time does not stand still. */
  method Pass(server: Server, limit: int, said: nat -> Said, ghost x: Payment)
    requires server.Sound() && server.store.reliable && server.advancing && limit >= 1
    requires x.id in Waiting(server.store.rows, true) && Untouched(server.store.rows, x)
    modifies server`removed, server`calls, server`answers, server`trace, server.store
    ensures server.Sound()
    ensures Untouched(server.store.rows, x) ==>
              && x.id in Waiting(server.store.rows, true)
              && |Ahead(server.store.rows, x)| + Serves(limit) <= |Ahead(old(server.store.rows), x)|
  {
    server.InOrder();
    assert RowOk(server.Now(), x.id);
    server.Tick();
    PassNow(server, limit, said, x);
  }

  method PassNow(server: Server, limit: int, said: nat -> Said, ghost x: Payment)
    requires server.Sound() && server.store.reliable && limit >= 1 && x.updated < server.store.now
    requires x.id in Waiting(server.store.rows, true) && Untouched(server.store.rows, x)
    modifies server`removed, server`calls, server`answers, server`trace, server.store
    ensures server.Sound()
    ensures Untouched(server.store.rows, x) ==>
              && x.id in Waiting(server.store.rows, true)
              && |Ahead(server.store.rows, x)| + Serves(limit) <= |Ahead(old(server.store.rows), x)|
  {
    ghost var before := server.trace;
    ghost var list;
    var counts;
    counts, list := ReconcilePayments(server, limit, said, None);
    assert server.trace[|before| - 1] == before[|before| - 1];
    PassInTrace(server.trace, |before| - 1, x, list, limit);
  }

  /** The pass that began at instant k of the run. */
  lemma PassInTrace(trace: seq<World>, k: nat, x: Payment, list: seq<Payment>, limit: int)
    requires History(trace) && k < |trace| && limit >= 1 && x.updated < trace[k].now
    requires x.id in Waiting(trace[k].rows, true) && Untouched(trace[k].rows, x)
    requires FirstOf(list, trace[k].rows, Waiting(trace[k].rows, true), LIST)
    requires AllTouched(trace[|trace| - 1].rows, list, Share(limit, |list|), trace[k].now)
    ensures var rows := trace[|trace| - 1].rows;
            Untouched(rows, x) ==>
              x.id in Waiting(rows, true) && |Ahead(rows, x)| + Serves(limit) <= |Ahead(trace[k].rows, x)|
  {
    var a, b, row := trace[k], trace[|trace| - 1], trace[k].rows[x.id];
    assert PairKept(trace, k, k) && PairKept(trace, k, |trace| - 1);
    PassServes(a, b, row, list, limit);
    SameAhead(a.rows, row, x);
    SameAhead(b.rows, row, x);
  }

  lemma SameAhead(rows: Table, x: Payment, y: Payment)
    requires x.updated == y.updated && x.id == y.id
    ensures Ahead(rows, x) == Ahead(rows, y)
  {
  }

  function PassesFor(p: nat, n: nat): nat
    requires n > 0
  {
    p / n + 1
  }

  /** After so many passes the row, if still untouched, needs no more than the rest of `most`. */
  ghost predicate Queued(rows: Table, x: Payment, limit: int, passes: nat, most: nat)
    requires limit >= 1
  {
    && passes <= most
    && (Untouched(rows, x) ==>
        x.id in Waiting(rows, true) && passes + PassesFor(|Ahead(rows, x)|, Serves(limit)) <= most)
  }

  lemma OnePassLess(before: Table, after: Table, x: Payment, limit: int, passes: nat, most: nat)
    requires limit >= 1 && Untouched(before, x) && Queued(before, x, limit, passes, most)
    requires Untouched(after, x) ==>
               x.id in Waiting(after, true) && |Ahead(after, x)| + Serves(limit) <= |Ahead(before, x)|
    ensures Queued(after, x, limit, passes + 1, most)
  {
    if Untouched(after, x) { QuotientLess(|Ahead(before, x)|, |Ahead(after, x)|, Serves(limit)); }
  }

  /** A payment with p others ahead of it is served within ceil((p + 1) / limit) passes, whoever else joins and
      whatever comes of the queries of each pass. */
  method ServeWithin(server: Server, limit: int, id: Id, said: nat -> nat -> Said) returns (passes: nat)
    requires server.Sound() && server.store.reliable && server.advancing && limit >= 1
    requires id in Waiting(server.store.rows, true)
    modifies server`removed, server`calls, server`answers, server`trace, server.store
    ensures server.Sound() && !Untouched(server.store.rows, old(server.store.rows)[id])
    ensures passes <= PassesFor(|Ahead(old(server.store.rows), old(server.store.rows)[id])|, Serves(limit))
  {
    var x := server.store.rows[id];
    server.InOrder();
    ghost var most := PassesFor(|Ahead(server.store.rows, x)|, Serves(limit));
    passes := 0;
    while Untouched(server.store.rows, x)
      invariant server.Sound() && Queued(server.store.rows, x, limit, passes, most)
      decreases most - passes
    {
      ghost var before := server.store.rows;
      Pass(server, limit, said(passes), x);
      OnePassLess(before, server.store.rows, x, limit, passes, most);
      passes := passes + 1;
    }
  }

  // ---------------------------------------------------------------- a clock that stands still

  /** A pass of one payment at time `now`: the first of the queue is asked about and stays unresolved. */
  ghost predicate PassOfOne(t: Table, t': Table, now: nat) {
    exists list :: Unserved(list, t, t', now)
  }

  ghost predicate Unserved(list: seq<Payment>, t: Table, t': Table, now: nat) {
    && FirstOf(list, t, Waiting(t, true), LIST) && list != []
    && Transitioned(t, list[0].id, Unknown, Unknown, None, Some(ReconciliationPending), now) == Ok(t')
  }

  /** Every waiting payment carries the time `now`, and o comes before x. */
  ghost predicate Behind(t: Table, x: Payment, o: Id, now: nat) {
    && Keyed(t) && x.id in t && t[x.id] == x && x.id in Waiting(t, true) && o in Waiting(t, true) && o < x.id
    && forall id | id in Waiting(t, true) :: t[id].updated == now
  }

  lemma FirstIsAnother(list: seq<Payment>, t: Table, x: Payment, o: Id, now: nat)
    requires Behind(t, x, o, now) && FirstOf(list, t, Waiting(t, true), LIST) && list != []
    ensures list[0].id in Waiting(t, true) && list[0].id < x.id
  {
    OnTheListOrBehind(t, t[o], list, 1);
    assert list[0].updated == now;
  }

  /** A waiting row that is stamped at its own time keeps its place. */
  lemma StampedAgain(t: Table, id: Id, x: Payment, now: nat)
    requires Keyed(t) && id in Waiting(t, true) && id != x.id && t[id].updated == now
    requires Transitioned(t, id, Unknown, Unknown, None, Some(ReconciliationPending), now).Ok?
    ensures var t' := Transitioned(t, id, Unknown, Unknown, None, Some(ReconciliationPending), now).value;
            Waiting(t', true) == Waiting(t, true) && Ahead(t', x) == Ahead(t, x) && Keyed(t')
  {
    var t' := Transitioned(t, id, Unknown, Unknown, None, Some(ReconciliationPending), now).value;
    assert Waiting(t', true) == Waiting(t, true);
  }

  lemma StaysBehind(t: Table, t': Table, x: Payment, o: Id, now: nat)
    requires Behind(t, x, o, now) && PassOfOne(t, t', now)
    ensures Behind(t', x, o, now) && Ahead(t', x) == Ahead(t, x)
  {
    var list: seq<Payment> :| Unserved(list, t, t', now);
    FirstIsAnother(list, t, x, o, now);
    StampedAgain(t, list[0].id, x, now);
  }

  /** With a clock that stands still a payment may wait forever: however many passes of one are made while the waiting
      payments all carry the present time, one with a payment before it is never asked about, nor moves forward. */
  lemma {:induction false} StandingClockStarves(tables: seq<Table>, k: nat, x: Payment, o: Id, now: nat)
    requires k < |tables| && Behind(tables[0], x, o, now)
    requires forall i | 0 < i < |tables| :: PassOfOne(tables[i - 1], tables[i], now)
    ensures Behind(tables[k], x, o, now) && Ahead(tables[k], x) == Ahead(tables[0], x)
  {
    if k > 0 {
      StandingClockStarves(tables, k - 1, x, o, now);
      StaysBehind(tables[k - 1], tables[k], x, o, now);
    }
  }
}
