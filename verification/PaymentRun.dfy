/** Whole runs of the payment service: requests, reconciliation, retention and restarts in any order, each of them
    interleaved with steps of others at every wait. */
module PaymentRun {
  import opened Wrappers
  import opened Texts
  import opened PaymentStore
  import opened PaymentWorld
  import opened DurablePayment
  import opened PaymentReconcile

  datatype Task = Pay(answer: Option<bool>, identity: Option<Reservation>, fingerprint: Option<nat>, served: bool,
                      reply: Option<SettleReply>, said: nat -> Said, budget: nat)
                | Reconcile(limit: int, said: nat -> Said, time: Option<nat>)
                | Retain(retention: int)
                | Reboot(keep: int)
                | Idle

  method Perform(server: Server, task: Task)
    requires server.Sound()
    modifies server`removed, server`calls, server`answers, server`trace, server.store
    ensures server.Sound() && old(server.trace) <= server.trace
  {
    match task
    case Pay(answer, identity, fingerprint, served, reply, said, budget) =>
      ghost var k;
      var paid;
      paid, k := server.Request(answer, identity, fingerprint, served, reply, said, budget);
    case Reconcile(limit, said, time) =>
      ghost var list;
      var counts;
      counts, list := ReconcilePayments(server, limit, said, time);
    case Retain(retention) =>
      var _ := server.Cleanup(retention);
    case Reboot(keep) =>
      var _ := server.Restart(keep);
    case Idle =>
      server.Others();
  }

  method Run(tasks: seq<Task>, maxRecords: nat, reliable: bool, advancing: bool, quiet: bool, start: nat)
    returns (server: Server)
    ensures server.Sound()
  {
    server := new Server(maxRecords, reliable, advancing, quiet, start);
    for i := 0 to |tasks|
      invariant fresh(server) && fresh(server.store) && server.Sound()
    {
      Perform(server, tasks[i]);
    }
  }

  /** At every instant of every run, two settle calls differ in authorization or deadline; and the second for one
      authorization came after retention had deleted the first, finished and past its deadline. */
  lemma SettleAtMostOnce(trace: seq<World>, k: nat, i: nat, j: nat)
    requires History(trace) && k < |trace| && i < j < |trace[k].calls|
    requires trace[k].calls[i].payment == trace[k].calls[j].payment
    ensures trace[k].calls[i].validBefore < trace[k].calls[j].validBefore
    ensures var c := trace[k].calls[i];
            && c.id in trace[k].removed && Terminal(trace[k].removed[c.id].row.state)
            && c.validBefore < trace[k].removed[c.id].at <= trace[k].calls[j].at
  {
    assert PairKept(trace, k, k);
    SecondCallAfterCleanup(trace[k], i, j);
    assert PairOk(trace[k], i, j);
  }

  /** Between any two instants of a run nothing is undone. */
  lemma RunKeeps(trace: seq<World>, i: nat, j: nat, id: Id)
    requires History(trace) && i <= j < |trace| && id in trace[i].rows && id in trace[j].rows
    ensures trace[j].rows[id].terms == trace[i].rows[id].terms
    ensures Terminal(trace[i].rows[id].state) ==> trace[j].rows[id].state == trace[i].rows[id].state
    ensures trace[i].rows[id].txHash.Some? ==>
              trace[j].rows[id].txHash.Some? &&
                Lower(trace[j].rows[id].txHash.value) == Lower(trace[i].rows[id].txHash.value)
  {
    assert PairKept(trace, i, j);
    NothingUndone(trace[i], trace[j], id);
  }

  /** A deleted payment was finished, its deadline had passed, and its id never comes back. */
  lemma DeletedForGood(trace: seq<World>, i: nat, j: nat, k: nat, id: Id)
    requires History(trace) && i <= j <= k < |trace| && id in trace[i].rows && id !in trace[j].rows
    ensures id !in trace[k].rows
    ensures trace[i].rows[id].terms.validBefore < trace[j].now
    ensures id in trace[j].removed && Terminal(trace[j].removed[id].row.state)
  {
    assert PairKept(trace, i, j) && PairKept(trace, j, k) && PairKept(trace, j, j);
    assert RowKept(trace[i], trace[j], id);
    assert RemovalOk(trace[j], id) && RemovalKept(trace[j], trace[k], id);
    RowsApart(trace[k]);
  }

  /** Settled at any instant means: submitted, and confirmed by the chain for the hash that is stored. */
  lemma SettledIsConfirmed(trace: seq<World>, k: nat, id: Id)
    requires History(trace) && k < |trace| && id in trace[k].rows && trace[k].rows[id].state == Settled
    ensures ConfirmedRow(trace[k], trace[k].rows[id]) && Called(trace[k], id)
  {
    assert PairKept(trace, k, k);
    SettledMeans(trace[k], id);
  }
}
