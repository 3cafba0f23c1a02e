/** The snapshot figures of the market and of its capability groups: nothing is lost or counted twice between them. */
module MarketSnapshot {
  import opened Wrappers

  /** The discovery view of a fulfilled demand, by the names of its two states. */
  datatype View = View(metadata: nat, state: nat)

  datatype Entry = Entry(capability: string, status: nat, committed: nat, calls: nat, supporters: nat,
                         view: Option<View>)

  const FULFILLED := 2
  const STATUSES := 5
  const METADATA_STATES := 3
  const VIEW_STATES := 6

  datatype SnapshotError = InvalidStatus | DiscoveryUnavailable

  /** What the named counters count: raw statuses, metadata states, observation states. */
  datatype Tally = OfStatus(status: nat) | OfMetadata(metadata: nat) | OfObservation(state: nat)

  datatype Snapshot = Snapshot(count: nat, funded: nat, escrow: nat, calls: nat, supporters: nat,
                               tallies: multiset<Tally>)

  const EMPTY := Snapshot(0, 0, 0, 0, 0, multiset{})

  predicate KnownView(v: Option<View>) {
    v.Some? && v.value.metadata < METADATA_STATES && v.value.state < VIEW_STATES
  }

  predicate Viewed(e: Entry, discovery: bool) {
    discovery && e.status == FULFILLED
  }

  function Check(e: Entry, discovery: bool): Option<SnapshotError> {
    if e.status >= STATUSES then Some(InvalidStatus)
    else if Viewed(e, discovery) && !KnownView(e.view) then Some(DiscoveryUnavailable)
    else None
  }

  function Plus(a: Snapshot, b: Snapshot): Snapshot {
    Snapshot(a.count + b.count, a.funded + b.funded, a.escrow + b.escrow, a.calls + b.calls,
             a.supporters + b.supporters,
             a.tallies + b.tallies)
  }

  function Tallies(e: Entry, discovery: bool): multiset<Tally> {
    multiset{OfStatus(e.status)} +
    if Viewed(e, discovery) && e.view.Some? then
      multiset{OfMetadata(e.view.value.metadata), OfObservation(e.view.value.state)}
    else multiset{}
  }

  /** One entry on its own. */
  function One(e: Entry, discovery: bool): Snapshot {
    Snapshot(1, if e.committed > 0 then 1 else 0, e.committed, e.calls, e.supporters, Tallies(e, discovery))
  }

  predicate AllCheck(entries: seq<Entry>, n: nat, discovery: bool) {
    n <= |entries| && forall i | 0 <= i < n :: Check(entries[i], discovery).None?
  }

  /** The sum over the entries. */
  function Sum(entries: seq<Entry>, discovery: bool): Snapshot {
    if entries == [] then EMPTY
    else Plus(Sum(entries[..|entries| - 1], discovery), One(entries[|entries| - 1], discovery))
  }

  lemma SumLonger(entries: seq<Entry>, e: Entry, discovery: bool)
    ensures Sum(entries + [e], discovery) == Plus(Sum(entries, discovery), One(e, discovery))
  {
    assert (entries + [e])[..|entries|] == entries;
  }

  lemma SumNext(entries: seq<Entry>, i: nat, discovery: bool)
    requires i < |entries|
    ensures Sum(entries[..i + 1], discovery) == Plus(Sum(entries[..i], discovery), One(entries[i], discovery))
  {
    SumLonger(entries[..i], entries[i], discovery);
    assert entries[..i + 1] == entries[..i] + [entries[i]];
  }

  // ---------------------------------------------------------------- what the figures mean

  /** The entry has this status or, if it is fulfilled and viewed, this metadata or observation state. */
  predicate Carries(e: Entry, discovery: bool, t: Tally) {
    match t
    case OfStatus(k) => e.status == k
    case OfMetadata(m) => discovery && e.status == FULFILLED && e.view.Some? && e.view.value.metadata == m
    case OfObservation(v) => discovery && e.status == FULFILLED && e.view.Some? && e.view.value.state == v
  }

  function With(entries: seq<Entry>, discovery: bool, t: Tally): set<nat> {
    set i: nat | i < |entries| && Carries(entries[i], discovery, t)
  }

  function FundedOnes(entries: seq<Entry>): set<nat> {
    set i: nat | i < |entries| && entries[i].committed > 0
  }

  function Total(xs: seq<nat>): nat {
    if xs == [] then 0 else Total(xs[..|xs| - 1]) + xs[|xs| - 1]
  }

  function Column(entries: seq<Entry>, f: Entry -> nat): seq<nat> {
    seq(|entries|, i requires 0 <= i < |entries| => f(entries[i]))
  }

  /** Each tally is the number of entries that carry it. */
  ghost predicate TalliesMean(s: Snapshot, entries: seq<Entry>, discovery: bool) {
    forall t :: s.tallies[t] == |With(entries, discovery, t)|
  }

  ghost predicate SumsMean(s: Snapshot, entries: seq<Entry>) {
    && s.count == |entries| && s.funded == |FundedOnes(entries)|
    && s.escrow == Total(Column(entries, (e: Entry) => e.committed))
    && s.calls == Total(Column(entries, (e: Entry) => e.calls))
    && s.supporters == Total(Column(entries, (e: Entry) => e.supporters))
  }

  lemma ColumnLast(entries: seq<Entry>, f: Entry -> nat)
    requires entries != []
    ensures Total(Column(entries, f)) == Total(Column(entries[..|entries| - 1], f)) + f(entries[|entries| - 1])
  {
    var n := |entries| - 1;
    assert Column(entries, f)[..n] == Column(entries[..n], f);
  }

  lemma FundedLast(entries: seq<Entry>)
    requires entries != []
    ensures var n := |entries| - 1;
            |FundedOnes(entries)| == |FundedOnes(entries[..n])| + if entries[n].committed > 0 then 1 else 0
  {
    var n := |entries| - 1;
    assert FundedOnes(entries) == FundedOnes(entries[..n]) + if entries[n].committed > 0 then {n} else {};
  }

  lemma {:induction false} SumsAre(entries: seq<Entry>, discovery: bool)
    ensures SumsMean(Sum(entries, discovery), entries)
  {
    if entries != [] {
      var n := |entries| - 1;
      SumsAre(entries[..n], discovery);
      ColumnLast(entries, (e: Entry) => e.committed);
      ColumnLast(entries, (e: Entry) => e.calls);
      ColumnLast(entries, (e: Entry) => e.supporters);
      FundedLast(entries);
    }
  }

  lemma TalliesOne(e: Entry, discovery: bool, t: Tally)
    ensures Tallies(e, discovery)[t] == if Carries(e, discovery, t) then 1 else 0
  {
  }

  lemma WithLast(entries: seq<Entry>, discovery: bool, t: Tally)
    requires entries != []
    ensures var n := |entries| - 1;
            |With(entries, discovery, t)| == |With(entries[..n], discovery, t)| +
              if Carries(entries[n], discovery, t) then 1 else 0
  {
    var n := |entries| - 1;
    assert With(entries, discovery, t) == With(entries[..n], discovery, t) +
           if Carries(entries[n], discovery, t) then {n} else {};
  }

  lemma {:induction false} TallyIs(entries: seq<Entry>, discovery: bool, t: Tally)
    ensures Sum(entries, discovery).tallies[t] == |With(entries, discovery, t)|
  {
    if entries != [] {
      var n := |entries| - 1;
      TallyIs(entries[..n], discovery, t);
      WithLast(entries, discovery, t);
      TalliesOne(entries[n], discovery, t);
    }
  }

  lemma TalliesAre(entries: seq<Entry>, discovery: bool)
    ensures TalliesMean(Sum(entries, discovery), entries, discovery)
  {
    forall t ensures Sum(entries, discovery).tallies[t] == |With(entries, discovery, t)| {
      TallyIs(entries, discovery, t);
    }
  }

  datatype Kind = ByStatus | ByMetadata | ByObservation

  function TallyOf(kind: Kind, k: nat): Tally {
    match kind case ByStatus => OfStatus(k) case ByMetadata => OfMetadata(k) case ByObservation => OfObservation(k)
  }

  /** The tallies of one kind, together. */
  function All(t: multiset<Tally>, kind: Kind, n: nat): nat {
    if n == 0 then 0 else All(t, kind, n - 1) + t[TallyOf(kind, n - 1)]
  }

  /** Every demand has one status, and with discovery every fulfilled one has one metadata and one observation state. */
  ghost predicate AddUp(s: Snapshot, discovery: bool) {
    && All(s.tallies, ByStatus, STATUSES) == s.count
    && (discovery ==> All(s.tallies, ByMetadata, METADATA_STATES) == s.tallies[OfStatus(FULFILLED)])
    && (discovery ==> All(s.tallies, ByObservation, VIEW_STATES) == s.tallies[OfStatus(FULFILLED)])
  }

  lemma {:induction false} AllPlus(t: multiset<Tally>, more: multiset<Tally>, kind: Kind, n: nat)
    ensures All(t + more, kind, n) == All(t, kind, n) + All(more, kind, n)
  {
    if n > 0 { AllPlus(t, more, kind, n - 1); }
  }

  /** Of one kind an entry has at most one tally. */
  lemma {:induction false} AllOfOne(e: Entry, discovery: bool, kind: Kind, n: nat, at: nat)
    requires forall k: nat :: k != at ==> !Carries(e, discovery, TallyOf(kind, k))
    ensures All(Tallies(e, discovery), kind, n) == if at < n && Carries(e, discovery, TallyOf(kind, at)) then 1 else 0
  {
    if n > 0 {
      AllOfOne(e, discovery, kind, n - 1, at);
      TalliesOne(e, discovery, TallyOf(kind, n - 1));
    }
  }

  lemma OneStatus(e: Entry, discovery: bool)
    requires Check(e, discovery).None?
    ensures All(Tallies(e, discovery), ByStatus, STATUSES) == 1
  {
    AllOfOne(e, discovery, ByStatus, STATUSES, e.status);
  }

  lemma OneView(e: Entry)
    requires Check(e, true).None?
    ensures All(Tallies(e, true), ByMetadata, METADATA_STATES) == Tallies(e, true)[OfStatus(FULFILLED)]
    ensures All(Tallies(e, true), ByObservation, VIEW_STATES) == Tallies(e, true)[OfStatus(FULFILLED)]
  {
    TalliesOne(e, true, OfStatus(FULFILLED));
    var v := if e.view.Some? then e.view.value else View(0, 0);
    AllOfOne(e, true, ByMetadata, METADATA_STATES, v.metadata);
    AllOfOne(e, true, ByObservation, VIEW_STATES, v.state);
  }

  /** What one checked entry adds. */
  lemma OneAddsUp(e: Entry, discovery: bool)
    requires Check(e, discovery).None?
    ensures AddUp(One(e, discovery), discovery)
  {
    OneStatus(e, discovery);
    if discovery { OneView(e); }
  }

  lemma PlusAddsUp(a: Snapshot, b: Snapshot, discovery: bool)
    requires AddUp(a, discovery) && AddUp(b, discovery)
    ensures AddUp(Plus(a, b), discovery)
  {
    AllPlus(a.tallies, b.tallies, ByStatus, STATUSES);
    AllPlus(a.tallies, b.tallies, ByMetadata, METADATA_STATES);
    AllPlus(a.tallies, b.tallies, ByObservation, VIEW_STATES);
  }

  lemma {:induction false} NothingTallied(kind: Kind, n: nat)
    ensures All(multiset{}, kind, n) == 0
  {
    if n > 0 { NothingTallied(kind, n - 1); }
  }

  lemma {:induction false} SumAddsUp(entries: seq<Entry>, discovery: bool)
    requires AllCheck(entries, |entries|, discovery)
    ensures AddUp(Sum(entries, discovery), discovery)
  {
    if entries == [] {
      NothingTallied(ByStatus, STATUSES);
      NothingTallied(ByMetadata, METADATA_STATES);
      NothingTallied(ByObservation, VIEW_STATES);
    } else {
      SumAddsUp(entries[..|entries| - 1], discovery);
      OneAddsUp(entries[|entries| - 1], discovery);
      PlusAddsUp(Sum(entries[..|entries| - 1], discovery), One(entries[|entries| - 1], discovery), discovery);
    }
  }

  lemma TakenNext(entries: seq<Entry>, i: nat, s: Snapshot, discovery: bool)
    requires i < |entries| && s == Sum(entries[..i], discovery)
    ensures Plus(s, One(entries[i], discovery)) == Sum(entries[..i + 1], discovery)
  {
    SumNext(entries, i, discovery);
  }

  lemma CheckedNext(entries: seq<Entry>, i: nat, discovery: bool)
    requires i < |entries| && AllCheck(entries, i, discovery)
    ensures AllCheck(entries, i + 1, discovery) <==> Check(entries[i], discovery).None?
  {
  }

  /** One pass; it throws exactly when some entry has no known status, or a fulfilled one no known view. */
  method TakeSnapshot(entries: seq<Entry>, discovery: bool) returns (r: Result<Snapshot, SnapshotError>)
    ensures r.Ok? <==> AllCheck(entries, |entries|, discovery)
    ensures r.Ok? ==> r.value == Sum(entries, discovery)
    ensures r.Ok? ==> && SumsMean(r.value, entries) && TalliesMean(r.value, entries, discovery)
                      && AddUp(r.value, discovery)
  {
    var s := EMPTY;
    for i := 0 to |entries|
      invariant AllCheck(entries, i, discovery)
      invariant s == Sum(entries[..i], discovery)
    {
      var error := Check(entries[i], discovery);
      CheckedNext(entries, i, discovery);
      if error.Some? { return Err(error.value); }
      TakenNext(entries, i, s, discovery);
      s := Plus(s, One(entries[i], discovery));
    }
    assert entries[..|entries|] == entries;
    SumsAre(entries, discovery);
    TalliesAre(entries, discovery);
    SumAddsUp(entries, discovery);
    r := Ok(s);
  }

  // ---------------------------------------------------------------- groups

  datatype Group = Group(capability: string, entries: seq<Entry>)

  predicate Grouped(groups: seq<Group>) {
    && (forall i, j | 0 <= i < j < |groups| :: groups[i].capability != groups[j].capability)
    && (forall i | 0 <= i < |groups| :: OneCapability(groups[i]))
  }

  predicate OneCapability(g: Group) {
    g.entries != [] && forall i | 0 <= i < |g.entries| :: g.entries[i].capability == g.capability
  }

  /** The sum over the groups of their sums. */
  function GroupSum(groups: seq<Group>, discovery: bool): Snapshot {
    if groups == [] then EMPTY
    else Plus(GroupSum(groups[..|groups| - 1], discovery), Sum(groups[|groups| - 1].entries, discovery))
  }

  lemma GroupSumLonger(groups: seq<Group>, g: Group, discovery: bool)
    ensures GroupSum(groups + [g], discovery) == Plus(GroupSum(groups, discovery), Sum(g.entries, discovery))
  {
    assert (groups + [g])[..|groups|] == groups;
  }

  function Place(groups: seq<Group>, capability: string): (k: nat)
    ensures k <= |groups| && (k < |groups| ==> groups[k].capability == capability)
    ensures forall i | 0 <= i < k :: groups[i].capability != capability
  {
    if groups == [] || groups[0].capability == capability then 0 else 1 + Place(groups[1..], capability)
  }

  /** The entry joins its group, or opens one. */
  function Joined(groups: seq<Group>, e: Entry): seq<Group> {
    var k := Place(groups, e.capability);
    if k < |groups| then groups[k := Group(e.capability, groups[k].entries + [e])]
    else groups + [Group(e.capability, [e])]
  }

  lemma JoinedGrouped(groups: seq<Group>, e: Entry)
    requires Grouped(groups)
    ensures Grouped(Joined(groups, e))
  {
    var k := Place(groups, e.capability);
    var after := Joined(groups, e);
    forall i | 0 <= i < |after| ensures OneCapability(after[i]) {
      assert i < |groups| ==> OneCapability(groups[i]);
    }
  }

  lemma PlusSwaps(a: Snapshot, b: Snapshot, c: Snapshot)
    ensures Plus(Plus(a, b), c) == Plus(Plus(a, c), b) && Plus(Plus(a, b), c) == Plus(a, Plus(b, c)) &&
              Plus(EMPTY, a) == a
  {
  }

  /** One more entry in group k adds that entry to the total. */
  lemma {:induction false} GroupSumChanged(groups: seq<Group>, k: nat, g: Group, e: Entry, discovery: bool)
    requires k < |groups| && g.entries == groups[k].entries + [e]
    ensures GroupSum(groups[k := g], discovery) == Plus(GroupSum(groups, discovery), One(e, discovery))
    decreases |groups|
  {
    var n := |groups| - 1;
    var init, last := groups[..n], groups[n];
    assert groups == init + [last];
    GroupSumLonger(init, last, discovery);
    if k == n {
      assert groups[k := g] == init + [g];
      GroupSumLonger(init, g, discovery);
      SumLonger(last.entries, e, discovery);
      PlusSwaps(GroupSum(init, discovery), Sum(last.entries, discovery), One(e, discovery));
    } else {
      assert groups[k := g] == init[k := g] + [last];
      GroupSumChanged(init, k, g, e, discovery);
      GroupSumLonger(init[k := g], last, discovery);
      PlusSwaps(GroupSum(init, discovery), One(e, discovery), Sum(last.entries, discovery));
    }
  }

  lemma SumOfOne(e: Entry, discovery: bool)
    ensures Sum([e], discovery) == One(e, discovery)
  {
    assert [e] == [] + [e];
    SumLonger([], e, discovery);
    PlusSwaps(One(e, discovery), EMPTY, EMPTY);
  }

  lemma JoinedSum(groups: seq<Group>, e: Entry, discovery: bool)
    ensures GroupSum(Joined(groups, e), discovery) == Plus(GroupSum(groups, discovery), One(e, discovery))
  {
    var k := Place(groups, e.capability);
    if k < |groups| {
      GroupSumChanged(groups, k, Group(e.capability, groups[k].entries + [e]), e, discovery);
    } else {
      GroupSumLonger(groups, Group(e.capability, [e]), discovery);
      SumOfOne(e, discovery);
    }
  }

  lemma JoinedStep(groups: seq<Group>, entries: seq<Entry>, i: nat, discovery: bool)
    requires i < |entries| && GroupSum(groups, discovery) == Sum(entries[..i], discovery)
    ensures GroupSum(Joined(groups, entries[i]), discovery) == Sum(entries[..i + 1], discovery)
  {
    JoinedSum(groups, entries[i], discovery);
    SumNext(entries, i, discovery);
  }

  /** The entries of one capability, in their order. */
  function Of(entries: seq<Entry>, capability: string): seq<Entry> {
    if entries == [] then []
    else Of(entries[..|entries| - 1], capability) +
         if entries[|entries| - 1].capability == capability then [entries[|entries| - 1]] else []
  }

  lemma OfLonger(entries: seq<Entry>, e: Entry, capability: string)
    ensures Of(entries + [e], capability) == Of(entries, capability) + if e.capability == capability then [e] else []
  {
    assert (entries + [e])[..|entries|] == entries;
  }

  /** Each group holds exactly the entries of its capability, in order, and every entry has a group. */
  ghost predicate Partitioned(groups: seq<Group>, entries: seq<Entry>) {
    && (forall i | 0 <= i < |groups| :: groups[i].entries == Of(entries, groups[i].capability))
    && (forall e | e in entries :: Place(groups, e.capability) < |groups|)
  }

  /** A capability that nobody has yet has no entries. */
  lemma {:induction false} NobodyOf(entries: seq<Entry>, capability: string)
    requires forall e | e in entries :: e.capability != capability
    ensures Of(entries, capability) == []
  {
    if entries != [] { NobodyOf(entries[..|entries| - 1], capability); }
  }

  lemma PlaceStays(groups: seq<Group>, e: Entry, capability: string)
    requires Place(groups, capability) < |groups| || capability == e.capability
    ensures Place(Joined(groups, e), capability) < |Joined(groups, e)|
  {
    var after, k := Joined(groups, e), Place(groups, capability);
    if k < |groups| {
      assert after[k].capability == capability;
    } else {
      assert after[|groups|].capability == capability;
    }
  }

  lemma JoinedPartitioned(groups: seq<Group>, entries: seq<Entry>, e: Entry)
    requires Grouped(groups) && Partitioned(groups, entries)
    ensures Partitioned(Joined(groups, e), entries + [e])
  {
    var after, k := Joined(groups, e), Place(groups, e.capability);
    forall i | 0 <= i < |after| ensures after[i].entries == Of(entries + [e], after[i].capability) {
      OfLonger(entries, e, after[i].capability);
      if i == |groups| { NobodyOf(entries, e.capability); }
    }
    forall x | x in entries + [e] ensures Place(after, x.capability) < |after| {
      PlaceStays(groups, e, x.capability);
    }
  }

  ghost predicate GroupsOk(groups: seq<Group>, entries: seq<Entry>, discovery: bool) {
    Grouped(groups) && Partitioned(groups, entries) && GroupSum(groups, discovery) == Sum(entries, discovery)
  }

  lemma JoinedOk(groups: seq<Group>, entries: seq<Entry>, i: nat, discovery: bool)
    requires i < |entries| && GroupsOk(groups, entries[..i], discovery)
    ensures GroupsOk(Joined(groups, entries[i]), entries[..i + 1], discovery)
  {
    assert entries[..i + 1] == entries[..i] + [entries[i]];
    JoinedPartitioned(groups, entries[..i], entries[i]);
    JoinedGrouped(groups, entries[i]);
    JoinedStep(groups, entries, i, discovery);
  }

  /** Groups by capability. Every figure of the market is the sum of that figure over the groups. */
  method GroupByCapability(entries: seq<Entry>, discovery: bool) returns (groups: seq<Group>)
    ensures Grouped(groups) && Partitioned(groups, entries) && GroupSum(groups, discovery) == Sum(entries, discovery)
  {
    groups := [];
    for i := 0 to |entries|
      invariant GroupsOk(groups, entries[..i], discovery)
    {
      JoinedOk(groups, entries, i, discovery);
      groups := Joined(groups, entries[i]);
    }
    assert entries[..|entries|] == entries;
  }
}
