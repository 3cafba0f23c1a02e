/** Scores, orders and ranks of the demands that match a query. Scores are exact reals here; rounding is any
    function that does not reverse an order. */
module Scoring {
  import opened Wrappers

  datatype Item = Item(id: nat, committed: nat, calls: nat, supporters: nat, deadline: nat)

  const HORIZON := 2592000

  // ---------------------------------------------------------------- percentiles

  /** How many values are strictly smaller. */
  function CountLess(s: seq<int>, v: int): nat {
    if s == [] then 0 else (if s[0] < v then 1 else 0) + CountLess(s[1..], v)
  }

  lemma {:induction false} CountLessSplit(a: seq<int>, b: seq<int>, v: int)
    ensures CountLess(a + b, v) == CountLess(a, v) + CountLess(b, v)
  {
    if a == [] {
      assert a + b == b;
    } else {
      assert (a + b)[1..] == a[1..] + b;
      CountLessSplit(a[1..], b, v);
    }
  }

  lemma {:induction false} CountLessBounds(s: seq<int>, v: int)
    ensures CountLess(s, v) <= |s|
    ensures CountLess(s, v) == |s| <==> forall i | 0 <= i < |s| :: s[i] < v
  {
    if s != [] {
      CountLessBounds(s[1..], v);
      assert forall i | 0 <= i < |s[1..]| :: s[1..][i] == s[i + 1];
      if s[0] < v && CountLess(s[1..], v) == |s[1..]| {
        forall i | 0 <= i < |s| ensures s[i] < v {
          assert i > 0 ==> s[1..][i - 1] == s[i];
        }
      }
    }
  }

  lemma {:induction false} CountLessMonotone(s: seq<int>, v: int, w: int)
    requires v <= w
    ensures CountLess(s, v) <= CountLess(s, w)
  {
    if s != [] { CountLessMonotone(s[1..], v, w); }
  }

  predicate Ascending(s: seq<int>) {
    forall i, j | 0 <= i < j < |s| :: s[i] <= s[j]
  }

  /** The first `low` values are smaller and the others are not: then `low` of them are smaller. */
  lemma {:induction false} SmallerPrefix(s: seq<int>, v: int, low: nat)
    requires low <= |s| && (forall i | 0 <= i < low :: s[i] < v) && (forall i | low <= i < |s| :: s[i] >= v)
    ensures CountLess(s, v) == low
  {
    if s != [] {
      assert forall i | 0 <= i < |s[1..]| :: s[1..][i] == s[i + 1];
      SmallerPrefix(s[1..], v, if low > 0 then low - 1 else 0);
    }
  }

  /** The value's place among n: strictly smaller ones over the others. */
  function Place(smaller: nat, n: nat): real {
    if n == 0 then 0.0 else if n == 1 then 1.0 else smaller as real / (n - 1) as real
  }

  method Percentile(sorted: seq<int>, value: int) returns (p: real)
    requires Ascending(sorted)
    ensures p == Place(CountLess(sorted, value), |sorted|)
  {
    if |sorted| == 0 { return 0.0; }
    if |sorted| == 1 { return 1.0; }
    var low, high := 0, |sorted|;
    while low < high
      invariant 0 <= low <= high <= |sorted|
      invariant forall i | 0 <= i < low :: sorted[i] < value
      invariant forall i | high <= i < |sorted| :: sorted[i] >= value
    {
      var mid := (low + high) / 2;
      if sorted[mid] < value { low := mid + 1; } else { high := mid; }
    }
    SmallerPrefix(sorted, value, low);
    p := low as real / (|sorted| - 1) as real;
  }

  method InsertAscending(s: seq<int>, x: int) returns (r: seq<int>)
    requires Ascending(s)
    ensures Ascending(r) && |r| == |s| + 1
    ensures forall v :: CountLess(r, v) == CountLess(s, v) + if x < v then 1 else 0
  {
    var p := 0;
    while p < |s| && s[p] <= x
      invariant 0 <= p <= |s| && forall i | 0 <= i < p :: s[i] <= x
    {
      p := p + 1;
    }
    r := s[..p] + [x] + s[p..];
    forall v ensures CountLess(r, v) == CountLess(s, v) + if x < v then 1 else 0 {
      CountInserted(s, p, x, v);
    }
  }

  lemma CountInserted(s: seq<int>, p: nat, x: int, v: int)
    requires p <= |s|
    ensures CountLess(s[..p] + [x] + s[p..], v) == CountLess(s, v) + if x < v then 1 else 0
  {
    CountLessSplit(s[..p] + [x], s[p..], v);
    CountLessSplit(s[..p], [x], v);
    CountLessSplit(s[..p], s[p..], v);
    assert s[..p] + s[p..] == s;
  }

  method SortAscending(s: seq<int>) returns (r: seq<int>)
    ensures Ascending(r) && |r| == |s| && forall v :: CountLess(r, v) == CountLess(s, v)
  {
    r := [];
    for i := 0 to |s|
      invariant Ascending(r) && |r| == i && forall v :: CountLess(r, v) == CountLess(s[..i], v)
    {
      r := InsertAscending(r, s[i]);
      forall v ensures CountLess(s[..i + 1], v) == CountLess(s[..i], v) + if s[i] < v then 1 else 0 {
        assert s[..i + 1] == s[..i] + [s[i]];
        CountLessSplit(s[..i], [s[i]], v);
      }
    }
    assert s[..|s|] == s;
  }

  // ---------------------------------------------------------------- scores

  function Committed(pool: seq<Item>): seq<int> {
    seq(|pool|, i requires 0 <= i < |pool| => pool[i].committed)
  }

  function Calls(pool: seq<Item>): seq<int> {
    seq(|pool|, i requires 0 <= i < |pool| => pool[i].calls)
  }

  function Supporters(pool: seq<Item>): seq<int> {
    seq(|pool|, i requires 0 <= i < |pool| => pool[i].supporters)
  }

  function Freshness(deadline: nat, now: nat): real {
    var remaining := if deadline > now then deadline - now else 0;
    (if remaining > HORIZON then HORIZON else remaining) as real / HORIZON as real
  }

  function PlaceIn(values: seq<int>, v: int): real {
    Place(CountLess(values, v), |values|)
  }

  /** The score from its meaning: each factor counts who is strictly below. */
  function Score(item: Item, pool: seq<Item>, now: nat): real {
    0.5 * PlaceIn(Committed(pool), item.committed) + 0.25 * PlaceIn(Calls(pool), item.calls)
    + 0.15 * PlaceIn(Supporters(pool), item.supporters) + 0.1 * Freshness(item.deadline, now)
  }

  /** The score as computed: three sorted lists, three searches. */
  method ScoreItem(item: Item, pool: seq<Item>, now: nat) returns (score: real)
    ensures score == Score(item, pool, now)
  {
    var committed := SortAscending(Committed(pool));
    var calls := SortAscending(Calls(pool));
    var supporters := SortAscending(Supporters(pool));
    var f := Percentile(committed, item.committed);
    var c := Percentile(calls, item.calls);
    var s := Percentile(supporters, item.supporters);
    score := 0.5 * f + 0.25 * c + 0.15 * s + 0.1 * Freshness(item.deadline, now);
  }

  lemma FractionBounds(a: nat, b: nat)
    requires b > 0 && a <= b
    ensures 0.0 <= a as real / b as real <= 1.0
  {
  }

  /** A percentile is at most 1 exactly when some value of the pool is at least as large. */
  lemma PlaceInBounds(values: seq<int>, v: int)
    ensures PlaceIn(values, v) >= 0.0
    ensures |values| >= 2 ==> (PlaceIn(values, v) <= 1.0 <==> exists i :: 0 <= i < |values| && values[i] >= v)
    ensures |values| < 2 ==> PlaceIn(values, v) <= 1.0
  {
    CountLessBounds(values, v);
    if |values| >= 2 {
      if CountLess(values, v) < |values| {
        FractionBounds(CountLess(values, v), |values| - 1);
      }
    }
  }

  lemma FreshnessBounds(deadline: nat, now: nat)
    ensures 0.0 <= Freshness(deadline, now) <= 1.0
  {
  }

  /** The score of a member of the pool lies in [0, 1]. */
  lemma ScoreInRange(pool: seq<Item>, k: nat, now: nat)
    requires k < |pool|
    ensures 0.0 <= Score(pool[k], pool, now) <= 1.0
  {
    assert Committed(pool)[k] >= pool[k].committed && Calls(pool)[k] >= pool[k].calls &&
             Supporters(pool)[k] >= pool[k].supporters;
    PlaceInBounds(Committed(pool), pool[k].committed);
    PlaceInBounds(Calls(pool), pool[k].calls);
    PlaceInBounds(Supporters(pool), pool[k].supporters);
    FreshnessBounds(pool[k].deadline, now);
  }

  /** Value k is the largest, and no other is as large. */
  ghost predicate Tops(values: seq<int>, k: nat) {
    k < |values| && forall i | 0 <= i < |values| && i != k :: values[i] < values[k]
  }

  /** No value is smaller than value k. */
  ghost predicate Bottoms(values: seq<int>, k: nat) {
    k < |values| && forall i | 0 <= i < |values| :: values[k] <= values[i]
  }

  lemma {:induction false} NoneLess(values: seq<int>, v: int)
    requires forall i | 0 <= i < |values| :: v <= values[i]
    ensures CountLess(values, v) == 0
  {
    if values != [] { NoneLess(values[1..], v); }
  }

  lemma {:induction false} AllButOneLess(values: seq<int>, k: nat)
    requires Tops(values, k)
    ensures CountLess(values, values[k]) == |values| - 1
  {
    var rest := values[1..];
    assert forall i | 0 <= i < |rest| :: rest[i] == values[i + 1];
    if k == 0 { CountLessBounds(rest, values[0]); } else { AllButOneLess(rest, k - 1); }
  }

  lemma PlaceOfEnds(values: seq<int>, k: nat)
    requires |values| >= 2
    ensures Tops(values, k) ==> PlaceIn(values, values[k]) == 1.0
    ensures Bottoms(values, k) ==> PlaceIn(values, values[k]) == 0.0
  {
    if Tops(values, k) { AllButOneLess(values, k); }
    if Bottoms(values, k) { NoneLess(values, values[k]); }
  }

  datatype Factor = Funding | ExpectedCalls | Support | Deadline

  /** Demand k comes first by this factor, or last. */
  ghost predicate Leads(pool: seq<Item>, k: nat, now: nat, factor: Factor)
    requires k < |pool|
  {
    match factor
    case Funding => Tops(Committed(pool), k)
    case ExpectedCalls => Tops(Calls(pool), k)
    case Support => Tops(Supporters(pool), k)
    case Deadline => pool[k].deadline >= now + HORIZON
  }

  ghost predicate Trails(pool: seq<Item>, k: nat, now: nat, factor: Factor)
    requires k < |pool|
  {
    match factor
    case Funding => Bottoms(Committed(pool), k)
    case ExpectedCalls => Bottoms(Calls(pool), k)
    case Support => Bottoms(Supporters(pool), k)
    case Deadline => pool[k].deadline <= now
  }

  /** What each factor is worth: the score of a demand that leads by it and trails by all others. */
  lemma WorthOf(pool: seq<Item>, k: nat, now: nat, factor: Factor)
    requires k < |pool| && |pool| >= 2 && Leads(pool, k, now, factor)
    requires forall f | f != factor :: Trails(pool, k, now, f)
    ensures Score(pool[k], pool, now) ==
              match factor case Funding => 0.5 case ExpectedCalls => 0.25 case Support => 0.15 case Deadline => 0.1
  {
    PlaceOfEnds(Committed(pool), k);
    PlaceOfEnds(Calls(pool), k);
    PlaceOfEnds(Supporters(pool), k);
    assert factor != Funding ==> Trails(pool, k, now, Funding);
    assert factor != ExpectedCalls ==> Trails(pool, k, now, ExpectedCalls);
    assert factor != Support ==> Trails(pool, k, now, Support);
    assert factor != Deadline ==> Trails(pool, k, now, Deadline);
  }

  lemma FractionMonotone(a: nat, b: nat, n: nat)
    requires n > 0 && a <= b
    ensures a as real / n as real <= b as real / n as real
  {
  }

  lemma PlaceMonotone(values: seq<int>, v: int, w: int)
    requires v <= w
    ensures PlaceIn(values, v) <= PlaceIn(values, w)
  {
    CountLessMonotone(values, v, w);
    if |values| >= 2 { FractionMonotone(CountLess(values, v), CountLess(values, w), |values| - 1); }
  }

  lemma FreshnessMonotone(d: nat, e: nat, now: nat)
    requires d <= e
    ensures Freshness(d, now) <= Freshness(e, now)
  {
  }

  /** More of everything never scores lower. */
  lemma ScoreMonotone(a: Item, b: Item, pool: seq<Item>, now: nat)
    requires a.committed <= b.committed && a.calls <= b.calls && a.supporters <= b.supporters &&
               a.deadline <= b.deadline
    ensures Score(a, pool, now) <= Score(b, pool, now)
  {
    PlaceMonotone(Committed(pool), a.committed, b.committed);
    PlaceMonotone(Calls(pool), a.calls, b.calls);
    PlaceMonotone(Supporters(pool), a.supporters, b.supporters);
    FreshnessMonotone(a.deadline, b.deadline, now);
  }

  // ---------------------------------------------------------------- orders

  /** A matching demand with its rounded score; a deadline outside the range of dates has no date. */
  datatype Scored = Scored(item: Item, score: real, dated: bool)

  datatype Sort = BySupporters | ByCalls | ByDeadline | ByScore | ByBounty

  predicate NewerFirst(a: Scored, b: Scored) {
    a.item.id > b.item.id
  }

  /** a is listed before b. */
  predicate Listed(sort: Sort, a: Scored, b: Scored) {
    match sort
    case BySupporters => a.item.supporters > b.item.supporters ||
      (a.item.supporters == b.item.supporters && NewerFirst(a, b))
    case ByCalls => a.item.calls > b.item.calls || (a.item.calls == b.item.calls && NewerFirst(a, b))
    case ByDeadline =>
      if a.dated != b.dated then a.dated
      else if a.dated && a.item.deadline != b.item.deadline then a.item.deadline < b.item.deadline
      else NewerFirst(a, b)
    case ByScore => a.score > b.score || (a.score == b.score && NewerFirst(a, b))
    case ByBounty => a.item.committed > b.item.committed || (a.item.committed == b.item.committed && NewerFirst(a, b))
  }

  /** Every sort key gives a strict total order on demands with different ids, so the listing is determined. */
  lemma ListedIsTotal(sort: Sort, a: Scored, b: Scored, c: Scored)
    ensures !Listed(sort, a, a)
    ensures Listed(sort, a, b) ==> !Listed(sort, b, a)
    ensures a.item.id != b.item.id ==> Listed(sort, a, b) || Listed(sort, b, a)
    ensures Listed(sort, a, b) && Listed(sort, b, c) ==> Listed(sort, a, c)
  {
  }

  predicate InOrder(sort: Sort, rows: seq<Scored>) {
    forall i, j | 0 <= i < j < |rows| :: Listed(sort, rows[i], rows[j])
  }

  /** v is at least w, and if they are equal x is the newer demand. */
  ghost predicate Descends(v: real, w: real, x: Scored, y: Scored) {
    v >= w && (v == w ==> x.item.id > y.item.id)
  }

  /** What the order of a listing means: more supporters, calls, points or funding first, sooner deadlines first and
      undated ones last, and the newer of two that are alike. */
  lemma OrderMeans(sort: Sort, rows: seq<Scored>, i: nat, j: nat)
    requires InOrder(sort, rows) && i < j < |rows|
    ensures var x, y := rows[i], rows[j];
            match sort
            case BySupporters => Descends(x.item.supporters as real, y.item.supporters as real, x, y)
            case ByCalls => Descends(x.item.calls as real, y.item.calls as real, x, y)
            case ByScore => Descends(x.score, y.score, x, y)
            case ByBounty => Descends(x.item.committed as real, y.item.committed as real, x, y)
            case ByDeadline =>
              && (y.dated ==> x.dated && x.item.deadline <= y.item.deadline)
              && (!x.dated || (y.dated && x.item.deadline == y.item.deadline) ==> x.item.id > y.item.id)
  {
    assert Listed(sort, rows[i], rows[j]);
  }

  predicate Distinct(rows: seq<Scored>) {
    forall i, j | 0 <= i < j < |rows| :: rows[i].item.id != rows[j].item.id
  }

  predicate Differs(rows: seq<Scored>, x: Scored) {
    forall i | 0 <= i < |rows| :: rows[i].item.id != x.item.id
  }

  method Insert(sort: Sort, rows: seq<Scored>, x: Scored) returns (r: seq<Scored>)
    requires InOrder(sort, rows) && Differs(rows, x)
    ensures InOrder(sort, r) && multiset(r) == multiset(rows) + multiset{x}
  {
    var p := 0;
    while p < |rows| && Listed(sort, rows[p], x)
      invariant 0 <= p <= |rows| && forall i | 0 <= i < p :: Listed(sort, rows[i], x)
    {
      p := p + 1;
    }
    r := rows[..p] + [x] + rows[p..];
    assert rows == rows[..p] + rows[p..];
    forall i | p <= i < |rows| ensures Listed(sort, x, rows[i]) {
      ListedIsTotal(sort, x, rows[p], rows[i]);
    }
  }

  lemma SameMembers(a: seq<Scored>, b: seq<Scored>, x: Scored)
    requires multiset(a) == multiset(b) && Differs(b, x)
    ensures Differs(a, x)
  {
    forall i | 0 <= i < |a| ensures a[i].item.id != x.item.id {
      assert a[i] in multiset(a);
      assert a[i] in multiset(b);
      var j :| 0 <= j < |b| && b[j] == a[i];
    }
  }

  method SortRows(sort: Sort, rows: seq<Scored>) returns (r: seq<Scored>)
    requires Distinct(rows)
    ensures InOrder(sort, r) && multiset(r) == multiset(rows)
  {
    r := [];
    for i := 0 to |rows|
      invariant InOrder(sort, r) && multiset(r) == multiset(rows[..i])
    {
      SameMembers(r, rows[..i], rows[i]);
      r := Insert(sort, r, rows[i]);
      assert rows[..i + 1] == rows[..i] + [rows[i]];
    }
    assert rows[..|rows|] == rows;
  }

  // ---------------------------------------------------------------- ranks

  predicate RankedAt(ranks: map<nat, nat>, ranked: seq<Scored>, k: nat)
    requires k < |ranked|
  {
    ranked[k].item.id in ranks && ranks[ranked[k].item.id] == k + 1
  }

  predicate Placed(ranks: map<nat, nat>, ranked: seq<Scored>, id: nat, n: nat)
    requires id in ranks && n <= |ranked|
  {
    1 <= ranks[id] <= n && ranked[ranks[id] - 1].item.id == id
  }

  /** The first n rows have their ranks, and nothing else has one. */
  ghost predicate RanksUpTo(ranks: map<nat, nat>, ranked: seq<Scored>, n: nat) {
    && n <= |ranked| && (forall k | 0 <= k < n :: RankedAt(ranks, ranked, k))
    && (forall id | id in ranks :: Placed(ranks, ranked, id, n))
  }

  ghost predicate RanksOf(ranks: map<nat, nat>, ranked: seq<Scored>) {
    RanksUpTo(ranks, ranked, |ranked|)
  }

  lemma OneMoreRank(ranks: map<nat, nat>, ranked: seq<Scored>, i: nat)
    requires Distinct(ranked) && i < |ranked| && RanksUpTo(ranks, ranked, i)
    ensures RanksUpTo(ranks[ranked[i].item.id := i + 1], ranked, i + 1)
  {
    var next := ranks[ranked[i].item.id := i + 1];
    forall k | 0 <= k < i + 1 ensures RankedAt(next, ranked, k) {
      if k < i { assert RankedAt(ranks, ranked, k) && ranked[k].item.id != ranked[i].item.id; }
    }
    forall id | id in next ensures Placed(next, ranked, id, i + 1) {
      if id != ranked[i].item.id { assert Placed(ranks, ranked, id, i); }
    }
  }

  method AssignRanks(ranked: seq<Scored>) returns (ranks: map<nat, nat>)
    requires Distinct(ranked)
    ensures RanksOf(ranks, ranked)
  {
    ranks := map[];
    for i := 0 to |ranked|
      invariant RanksUpTo(ranks, ranked, i)
    {
      OneMoreRank(ranks, ranked, i);
      ranks := ranks[ranked[i].item.id := i + 1];
    }
  }

  /** Ranks by descending score, ties by descending id. */
  method Rank(rows: seq<Scored>) returns (ranks: map<nat, nat>, ranked: seq<Scored>)
    requires Distinct(rows)
    ensures InOrder(ByScore, ranked) && multiset(ranked) == multiset(rows) && RanksOf(ranks, ranked)
  {
    ranked := SortRows(ByScore, rows);
    forall k, i | 0 <= k < i < |ranked| ensures ranked[k].item.id != ranked[i].item.id {
      OrderApart(rows, ranked, k, i);
    }
    ranks := AssignRanks(ranked);
  }

  lemma OrderApart(rows: seq<Scored>, sorted: seq<Scored>, k: nat, i: nat)
    requires Distinct(rows) && InOrder(ByScore, sorted) && multiset(sorted) == multiset(rows) && k < i < |sorted|
    ensures sorted[k].item.id != sorted[i].item.id
  {
    ListedIsTotal(ByScore, sorted[k], sorted[i], sorted[i]);
    assert sorted[k] in multiset(sorted) && sorted[i] in multiset(sorted);
    assert sorted[k] in multiset(rows) && sorted[i] in multiset(rows);
    var p :| 0 <= p < |rows| && rows[p] == sorted[k];
    var q :| 0 <= q < |rows| && rows[q] == sorted[i];
    assert Listed(ByScore, sorted[k], sorted[i]);
    assert p != q;
  }

  ghost predicate HasRank(ranks: map<nat, nat>, r: nat) {
    exists id :: id in ranks && ranks[id] == r
  }

  /** The ranks are 1..n, each once, and a better rank means a higher score or, at equal scores, a higher id. */
  lemma RanksArePermutation(ranks: map<nat, nat>, ranked: seq<Scored>, a: nat, b: nat)
    requires RanksOf(ranks, ranked) && InOrder(ByScore, ranked) && a in ranks && b in ranks
    ensures forall r: nat | 1 <= r <= |ranked| :: HasRank(ranks, r)
    ensures ranks[a] == ranks[b] ==> a == b
    ensures ranks[a] < ranks[b] ==>
              var x, y := ranked[ranks[a] - 1], ranked[ranks[b] - 1];
              x.item.id == a && y.item.id == b && (x.score > y.score || (x.score == y.score && a > b))
  {
    forall r: nat | 1 <= r <= |ranked| ensures HasRank(ranks, r) {
      assert RankedAt(ranks, ranked, r - 1);
    }
    assert Placed(ranks, ranked, a, |ranked|) && Placed(ranks, ranked, b, |ranked|);
  }

  /** Rounding that keeps order never ranks a demand that is at least as large in every factor below, by score. */
  lemma RoundedMonotone(round: real -> real, a: Item, b: Item, pool: seq<Item>, now: nat)
    requires forall x: real, y: real | x <= y :: round(x) <= round(y)
    requires a.committed <= b.committed && a.calls <= b.calls && a.supporters <= b.supporters &&
               a.deadline <= b.deadline
    ensures round(Score(a, pool, now)) <= round(Score(b, pool, now))
  {
    ScoreMonotone(a, b, pool, now);
  }
}
