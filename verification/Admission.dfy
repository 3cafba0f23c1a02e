/** Admission control: a limiter that counts requests per key and window, and a gate that bounds the responses
    being worked on. */
module Admission {
  import opened Wrappers

  // ---------------------------------------------------------------- the rate limiter

  datatype Key = Key(route: nat, ip: nat)

  datatype Client = Client(key: Key, count: nat, expires: nat)

  /** A request that was let through, in the window that ends at `expires`. */
  datatype Pass = Pass(key: Key, at: nat, expires: nat)

  datatype Verdict = NoAddress | AtCapacity | Limited(retryAfter: nat) | Passed

  /** Insertion order is the order of expiry. */
  predicate ByExpiry(clients: seq<Client>) {
    forall i, j | 0 <= i < j < |clients| :: clients[i].expires <= clients[j].expires
  }

  predicate DistinctKeys(clients: seq<Client>) {
    forall i, j | 0 <= i < j < |clients| :: clients[i].key != clients[j].key
  }

  /** The entries that have not expired. */
  function Alive(clients: seq<Client>, time: nat): seq<Client> {
    if clients == [] then []
    else (if clients[0].expires > time then [clients[0]] else []) + Alive(clients[1..], time)
  }

  lemma {:induction false} AllAlive(clients: seq<Client>, time: nat)
    requires forall c | c in clients :: c.expires > time
    ensures Alive(clients, time) == clients
  {
    if clients != [] {
      AllAlive(clients[1..], time);
      assert clients == [clients[0]] + clients[1..];
    }
  }

  /** Dropping the expired prefix drops exactly the expired entries, because insertion order is expiry order. */
  lemma {:induction false} PrefixIsExpired(clients: seq<Client>, k: nat, time: nat)
    requires ByExpiry(clients) && k <= |clients| && (forall i | 0 <= i < k :: clients[i].expires <= time)
    requires k < |clients| ==> clients[k].expires > time
    ensures clients[k..] == Alive(clients, time)
  {
    if k == 0 {
      AllAlive(clients, time);
    } else {
      assert forall i | 0 <= i < |clients[1..]| :: clients[1..][i] == clients[i + 1];
      PrefixIsExpired(clients[1..], k - 1, time);
      assert clients[1..][k - 1..] == clients[k..];
    }
  }

  function PassesIn(log: seq<Pass>, key: Key, expires: nat): nat {
    if log == [] then 0
    else PassesIn(log[..|log| - 1], key, expires) +
         if log[|log| - 1].key == key && log[|log| - 1].expires == expires then 1 else 0
  }

  lemma OneMorePass(log: seq<Pass>, p: Pass, key: Key, expires: nat)
    ensures PassesIn(log + [p], key, expires) ==
            PassesIn(log, key, expires) + if p.key == key && p.expires == expires then 1 else 0
  {
    assert (log + [p])[..|log|] == log;
  }

  /** The limiter's map, and the requests it has let through so far. */
  datatype Book = Book(clients: seq<Client>, log: seq<Pass>, last: nat, window: nat, limits: map<nat, nat>)

  ghost predicate CountOk(b: Book, i: nat)
    requires i < |b.clients|
  {
    b.clients[i].count == PassesIn(b.log, b.clients[i].key, b.clients[i].expires) &&
      b.clients[i].expires <= b.last + b.window
  }

  ghost predicate PassOk(b: Book, i: nat)
    requires i < |b.log|
  {
    var p := b.log[i];
    && p.at < p.expires <= p.at + b.window && p.at <= b.last
    && p.key.route in b.limits && PassesIn(b.log, p.key, p.expires) <= b.limits[p.key.route]
  }

  /** Two windows of one key do not overlap. */
  ghost predicate WindowsApart(b: Book, i: nat, j: nat)
    requires i < |b.log| && j < |b.log|
  {
    b.log[i].key == b.log[j].key && b.log[i].expires < b.log[j].expires ==>
      b.log[i].expires + b.window <= b.log[j].expires
  }

  ghost predicate HasEntry(clients: seq<Client>, key: Key, expires: nat) {
    exists k :: 0 <= k < |clients| && clients[k].key == key && clients[k].expires == expires
  }

  /** A logged window that may still be open is the key's entry. */
  ghost predicate OpenIsEntry(b: Book, i: nat)
    requires i < |b.log|
  {
    b.log[i].expires > b.last ==> HasEntry(b.clients, b.log[i].key, b.log[i].expires)
  }

  /** Whatever passed for an entry's key passed in its window or in one that ended before it began. */
  ghost predicate EntryApart(b: Book, i: nat, j: nat)
    requires i < |b.clients| && j < |b.log|
  {
    b.log[j].key == b.clients[i].key ==>
      b.log[j].expires == b.clients[i].expires || b.log[j].expires + b.window <= b.clients[i].expires
  }

  ghost predicate EntriesOk(b: Book) {
    && ByExpiry(b.clients) && DistinctKeys(b.clients)
    && (forall i | 0 <= i < |b.clients| :: CountOk(b, i))
    && (forall i, j | 0 <= i < |b.clients| && 0 <= j < |b.log| :: EntryApart(b, i, j))
  }

  ghost predicate LogOk(b: Book) {
    && (forall i | 0 <= i < |b.log| :: PassOk(b, i))
    && (forall i | 0 <= i < |b.log| :: OpenIsEntry(b, i))
    && (forall i, j | 0 <= i < |b.log| && 0 <= j < |b.log| :: WindowsApart(b, i, j))
  }

  ghost predicate BookOk(b: Book) {
    b.window > 0 && EntriesOk(b) && LogOk(b)
  }

  /** Time passes and the expired prefix goes. */
  lemma PurgedOk(b: Book, k: nat, time: nat)
    requires BookOk(b) && b.last <= time && k <= |b.clients|
    requires (forall i | 0 <= i < k :: b.clients[i].expires <= time) &&
               (k < |b.clients| ==> b.clients[k].expires > time)
    ensures BookOk(b.(clients := b.clients[k..], last := time))
    ensures b.clients[k..] == Alive(b.clients, time) && forall i | k <= i < |b.clients| :: b.clients[i].expires > time
  {
    var after := b.(clients := b.clients[k..], last := time);
    PrefixIsExpired(b.clients, k, time);
    forall i | 0 <= i < |after.clients| ensures CountOk(after, i) { assert CountOk(b, i + k); }
    forall i, j | 0 <= i < |after.clients| && 0 <= j < |after.log| ensures EntryApart(after, i, j) {
      assert EntryApart(b, i + k, j);
    }
    forall i | 0 <= i < |after.log| ensures PassOk(after, i) && OpenIsEntry(after, i) {
      assert PassOk(b, i) && OpenIsEntry(b, i);
      if after.log[i].expires > time {
        var m :| 0 <= m < |b.clients| && b.clients[m].key == b.log[i].key && b.clients[m].expires == b.log[i].expires;
        assert after.clients[m - k] == b.clients[m];
      }
    }
    forall i, j | 0 <= i < |after.log| && 0 <= j < |after.log| ensures WindowsApart(after, i, j) {
      assert WindowsApart(b, i, j);
    }
  }

  /** In a window that begins now nothing has passed yet. */
  lemma {:induction false} NothingPassed(log: seq<Pass>, key: Key, expires: nat)
    requires forall i | 0 <= i < |log| && log[i].key == key :: log[i].expires < expires
    ensures PassesIn(log, key, expires) == 0
  {
    if log != [] { NothingPassed(log[..|log| - 1], key, expires); }
  }

  /** A key without an entry has no open window. */
  lemma NoOpenWindow(b: Book, key: Key)
    requires LogOk(b) && forall i | 0 <= i < |b.clients| :: b.clients[i].key != key
    ensures forall i | 0 <= i < |b.log| && b.log[i].key == key :: b.log[i].expires <= b.last
  {
    forall i | 0 <= i < |b.log| && b.log[i].key == key ensures b.log[i].expires <= b.last { assert OpenIsEntry(b, i); }
  }

  function Entered(b: Book, key: Key): Book {
    b.(clients := b.clients + [Client(key, 0, b.last + b.window)])
  }

  lemma EnteredOk(b: Book, key: Key)
    requires BookOk(b) && forall i | 0 <= i < |b.clients| :: b.clients[i].key != key
    ensures BookOk(Entered(b, key))
  {
    var after := Entered(b, key);
    NoOpenWindow(b, key);
    NothingPassed(b.log, key, b.last + b.window);
    forall i | 0 <= i < |after.clients| ensures CountOk(after, i) && after.clients[i].expires <= b.last + b.window {
      if i < |b.clients| { assert CountOk(b, i); }
    }
    forall i, j | 0 <= i < |after.clients| && 0 <= j < |after.log| ensures EntryApart(after, i, j) {
      if i < |b.clients| { assert EntryApart(b, i, j); }
    }
    forall i | 0 <= i < |after.log| ensures PassOk(after, i) && OpenIsEntry(after, i) {
      assert PassOk(b, i) && OpenIsEntry(b, i);
      if after.log[i].expires > b.last {
        var m :| 0 <= m < |b.clients| && b.clients[m].key == b.log[i].key && b.clients[m].expires == b.log[i].expires;
        assert after.clients[m] == b.clients[m];
      }
    }
    forall i, j | 0 <= i < |after.log| && 0 <= j < |after.log| ensures WindowsApart(after, i, j) {
      assert WindowsApart(b, i, j);
    }
  }

  /** A request is counted in the window of entry i. */
  function Counted(b: Book, i: nat): Book
    requires i < |b.clients|
  {
    b.(clients := b.clients[i := b.clients[i].(count := b.clients[i].count + 1)],
       log := b.log + [Pass(b.clients[i].key, b.last, b.clients[i].expires)])
  }

  lemma CountedEntries(b: Book, i: nat)
    requires BookOk(b) && i < |b.clients|
    ensures EntriesOk(Counted(b, i))
  {
    var after := Counted(b, i);
    var p := after.log[|b.log|];
    forall k | 0 <= k < |after.clients| ensures CountOk(after, k) {
      assert CountOk(b, k);
      OneMorePass(b.log, p, after.clients[k].key, after.clients[k].expires);
    }
    forall k, j | 0 <= k < |after.clients| && 0 <= j < |after.log| ensures EntryApart(after, k, j) {
      if j < |b.log| { assert EntryApart(b, k, j); }
    }
  }

  lemma CountedLog(b: Book, i: nat)
    requires BookOk(b) && i < |b.clients| && b.clients[i].expires > b.last
    requires b.clients[i].key.route in b.limits && b.clients[i].count < b.limits[b.clients[i].key.route]
    ensures LogOk(Counted(b, i))
  {
    var after := Counted(b, i);
    var p := after.log[|b.log|];
    assert CountOk(b, i) && after.clients[i].key == p.key && after.clients[i].expires == p.expires;
    forall j | 0 <= j < |after.log| ensures PassOk(after, j) && OpenIsEntry(after, j) {
      OneMorePass(b.log, p, after.log[j].key, after.log[j].expires);
      if j < |b.log| {
        assert PassOk(b, j) && OpenIsEntry(b, j);
        if b.log[j].expires > b.last {
          var m :| 0 <= m < |b.clients| && b.clients[m].key == b.log[j].key && b.clients[m].expires == b.log[j].expires;
          assert after.clients[m].key == b.log[j].key;
        }
      }
    }
    forall j, k | 0 <= j < |after.log| && 0 <= k < |after.log| ensures WindowsApart(after, j, k) {
      if j < |b.log| { assert EntryApart(b, i, j); }
      if k < |b.log| { assert EntryApart(b, i, k); }
      if j < |b.log| && k < |b.log| { assert WindowsApart(b, j, k); }
    }
  }

  predicate NoEntry(clients: seq<Client>, key: Key) {
    forall i | 0 <= i < |clients| :: clients[i].key != key
  }

  class RateLimiter {
    var clients: seq<Client>
    const window: nat
    const maxKeys: nat
    const limits: map<nat, nat>
    ghost var last: nat
    ghost var log: seq<Pass>

    ghost function Now(): Book
      reads this
    {
      Book(clients, log, last, window, limits)
    }

    ghost predicate Valid()
      reads this
    {
      BookOk(Now()) && |clients| <= maxKeys
    }

    constructor (window: nat, maxKeys: nat, limits: map<nat, nat>)
      requires window > 0
      ensures Valid() && log == [] && last == 0
    {
      this.window, this.maxKeys, this.limits := window, maxKeys, limits;
      clients, log, last := [], [], 0;
    }

    method Purge(time: nat)
      requires Valid() && last <= time
      modifies this`clients, this`last
      ensures Valid() && last == time && clients == Alive(old(clients), time)
      ensures forall i | 0 <= i < |clients| :: clients[i].expires > time
    {
      var k := 0;
      while k < |clients| && clients[k].expires <= time
        invariant 0 <= k <= |clients| && forall i | 0 <= i < k :: clients[i].expires <= time
      {
        k := k + 1;
      }
      PurgedOk(Now(), k, time);
      clients, last := clients[k..], time;
    }

    method Find(key: Key) returns (at: Option<nat>)
      ensures at.Some? ==> at.value < |clients| && clients[at.value].key == key
      ensures at.None? ==> NoEntry(clients, key)
    {
      var i := 0;
      while i < |clients|
        invariant 0 <= i <= |clients| && forall j | 0 <= j < i :: clients[j].key != key
      {
        if clients[i].key == key { return Some(i); }
        i := i + 1;
      }
      return None;
    }

    /** The entry of a key; a new one needs room. */
    method Enter(key: Key, time: nat) returns (at: Option<nat>)
      requires Valid() && last == time && forall i | 0 <= i < |clients| :: clients[i].expires > time
      modifies this`clients
      ensures Valid() &&
                (at.Some? ==> at.value < |clients| && clients[at.value].key == key && clients[at.value].expires > time)
      ensures at.None? ==> clients == old(clients)
      ensures at.None? <==> |old(clients)| == maxKeys && NoEntry(old(clients), key)
      ensures (exists i :: 0 <= i < |old(clients)| && old(clients)[i].key == key) ==> clients == old(clients)
    {
      at := Find(key);
      if at.None? && |clients| < maxKeys {
        EnteredOk(Now(), key);
        clients := clients + [Client(key, 0, time + window)];
        at := Some(|clients| - 1);
      }
    }

    method Count(i: nat)
      requires Valid() && i < |clients| && clients[i].expires > last
      requires clients[i].key.route in limits && clients[i].count < limits[clients[i].key.route]
      modifies this`clients, this`log
      ensures Valid() && Now() == Counted(old(Now()), i)
    {
      CountedEntries(Now(), i);
      CountedLog(Now(), i);
      var e := clients[i];
      log := log + [Pass(e.key, last, e.expires)];
      clients := clients[i := e.(count := e.count + 1)];
    }

    /** One request; None stands for a client without a usable address. */
    method Handle(route: nat, ip: Option<nat>, time: nat) returns (v: Verdict)
      requires Valid() && last <= time && route in limits
      modifies this
      ensures Valid() && last == time
      ensures v != Passed ==> log == old(log)
      ensures v == Passed ==> ip.Some? && |log| == |old(log)| + 1 && old(log) < log &&
                              log[|old(log)|].key == Key(route, ip.value) && log[|old(log)|].at == time
      ensures v == NoAddress <==> ip.None?
      ensures v == AtCapacity <==>
                ip.Some? && |Alive(old(clients), time)| == maxKeys &&
                  NoEntry(Alive(old(clients), time), Key(route, ip.value))
      ensures v.Limited? ==> exists expires :: time < expires <= time + v.retryAfter * 1000 &&
                                               PassesIn(log, Key(route, ip.value), expires) >= limits[route]
    {
      Purge(time);
      if ip.None? { return NoAddress; }
      var at := Enter(Key(route, ip.value), time);
      if at.None? { return AtCapacity; }
      var e := clients[at.value];
      if e.count >= limits[route] {
        assert CountOk(Now(), at.value);
        return Limited(RetryAfter(e.expires - time));
      }
      Count(at.value);
      v := Passed;
    }
  }

  /** Whole seconds, rounded up, at least one. */
  function RetryAfter(ms: nat): (s: nat)
    ensures s >= 1 && s * 1000 >= ms && (s > 1 ==> (s - 1) * 1000 < ms)
  {
    if ms <= 1000 then 1 else (ms + 999) / 1000
  }

  /** No key passes more often than its limit in any window, and the windows of a key do not overlap. */
  lemma LimitHolds(b: Book, i: nat, j: nat)
    requires BookOk(b) && i < |b.log| && j < |b.log| && b.log[i].key == b.log[j].key
    ensures b.log[i].key.route in b.limits &&
              PassesIn(b.log, b.log[i].key, b.log[i].expires) <= b.limits[b.log[i].key.route]
    ensures b.log[i].expires - b.window <= b.log[i].at < b.log[i].expires
    ensures b.log[i].expires < b.log[j].expires ==> b.log[i].expires <= b.log[j].expires - b.window
  {
    assert PassOk(b, i) && WindowsApart(b, i, j);
  }

  // ---------------------------------------------------------------- the concurrency gate

  datatype Slot = Slot(pending: nat, ended: bool, released: bool)

  /** Ended, with no work left. */
  predicate Finished(s: Slot) {
    s.ended && s.pending == 0
  }

  /** The slot counts its work, and is free exactly if it is finished. */
  predicate Agrees(s: Slot, works: nat) {
    s.pending == works && (s.released <==> Finished(s))
  }

  function OpenIn(slots: map<nat, Slot>): set<nat> {
    set id | id in slots && !slots[id].released
  }

  lemma OpenKept(slots: map<nat, Slot>, id: nat, s: Slot)
    requires id in slots && s.released == slots[id].released
    ensures OpenIn(slots[id := s]) == OpenIn(slots)
  {
  }

  /** One piece of work less; the last one of an ended response frees it. */
  function WithoutOne(s: Slot): Slot
    requires s.pending > 0
  {
    Slot(s.pending - 1, s.ended, s.ended && s.pending == 1)
  }

  lemma WrittenTwice(slots: map<nat, Slot>, id: nat, s: Slot, s': Slot)
    ensures slots[id := s][id := s'] == slots[id := s']
  {
  }

  lemma WorkEnds(slots: map<nat, Slot>, works: multiset<nat>, id: nat)
    requires (forall i | i in slots :: Agrees(slots[i], works[i])) && (forall i | i in works :: i in slots) &&
               id in works
    ensures slots[id].pending > 0
    ensures var s := slots[id].(pending := slots[id].pending - 1);
            && OpenIn(slots[id := s]) == OpenIn(slots) && s.pending == (works - multiset{id})[id] && !s.released
            && (forall i | i in slots && i != id :: Agrees(slots[i], (works - multiset{id})[i]))
            && (forall i | i in works - multiset{id} :: i in slots)
  {
    assert Agrees(slots[id], works[id]);
    OpenKept(slots, id, slots[id].(pending := slots[id].pending - 1));
    forall i | i in slots && i != id ensures Agrees(slots[i], (works - multiset{id})[i]) {
      assert Agrees(slots[i], works[i]);
    }
  }

  class Gate {
    var active: nat
    const limit: nat
    /** Every response that was ever admitted. */
    var slots: map<nat, Slot>
    /** The work in progress, by the response it was begun for. */
    ghost var works: multiset<nat>

    ghost predicate SlotOk(id: nat)
      requires id in slots
      reads this
    {
      Agrees(slots[id], works[id])
    }

    ghost function Open(): set<nat>
      reads this
    {
      OpenIn(slots)
    }

    ghost predicate Valid()
      reads this
    {
      && (forall id | id in slots :: SlotOk(id))
      && (forall id | id in works :: id in slots)
      && active == |Open()| <= limit
    }

    constructor (limit: nat)
      ensures Valid() && slots == map[] && active == 0 && this.limit == limit
    {
      this.limit := limit;
      active, slots, works := 0, map[], multiset{};
    }

    /** A response enters, if there is room. */
    method Admit(id: nat) returns (admitted: bool)
      requires Valid() && id !in slots
      modifies this
      ensures Valid() && works == old(works) && admitted == (old(active) < limit)
      ensures admitted ==> slots == old(slots)[id := Slot(0, false, false)] && active == old(active) + 1
      ensures !admitted ==> slots == old(slots) && active == old(active)
    {
      if active >= limit { return false; }
      ghost var before := Open();
      slots, active := slots[id := Slot(0, false, false)], active + 1;
      assert Open() == before + {id};
      forall i | i in slots ensures SlotOk(i) { if i != id { assert old(SlotOk(i)); } }
      admitted := true;
    }

    /** Frees the slot if nothing keeps it; safe to call any number of times. */
    method Release(id: nat)
      requires id in slots && (forall i | i in slots && i != id :: SlotOk(i)) && (forall i | i in works :: i in slots)
      requires slots[id].pending == works[id] && (slots[id].released ==> Finished(slots[id])) &&
                 active == |Open()| <= limit
      modifies this`active, this`slots
      ensures Valid() && slots == old(slots)[id := old(slots)[id].(released := Finished(old(slots)[id]))]
      ensures active == old(active) - if !old(slots)[id].released && Finished(old(slots)[id]) then 1 else 0
    {
      if slots[id].released || !slots[id].ended || slots[id].pending != 0 {
        assert slots == slots[id := slots[id].(released := Finished(slots[id]))];
        assert SlotOk(id);
        return;
      }
      ghost var before := Open();
      assert id in before && before - {id} < before;
      slots := slots[id := slots[id].(released := true)];
      assert Open() == before - {id};
      active := active - 1;
      forall i | i in slots ensures SlotOk(i) { if i != id { assert old(SlotOk(i)); } }
    }

    /** One of the events that end a response; each may fire. */
    method End(id: nat)
      requires Valid() && id in slots
      modifies this`active, this`slots
      ensures Valid() && slots.Keys == old(slots).Keys && slots[id].ended
      ensures slots[id].released <==> slots[id].pending == 0
      ensures active == old(active) - if !old(slots)[id].released && slots[id].released then 1 else 0
      ensures forall i | i in slots && i != id :: slots[i] == old(slots)[i]
    {
      assert SlotOk(id);
      ghost var before := Open();
      slots := slots[id := slots[id].(ended := true)];
      assert Open() == before;
      forall i | i in slots && i != id ensures SlotOk(i) { assert old(SlotOk(i)); }
      Release(id);
    }

    /** Work on a response begins; once its slot is free the response is no longer attached to the gate. */
    method BeginWork(id: nat) returns (attached: bool)
      requires Valid()
      modifies this`slots, this`works
      ensures Valid() && active == old(active) && attached == (id in old(slots) && !old(slots)[id].released)
      ensures works == if attached then old(works) + multiset{id} else old(works)
      ensures slots ==
          if attached then old(slots)[id := old(slots)[id].(pending := old(slots)[id].pending + 1)] else old(slots)
    {
      attached := id in slots && !slots[id].released;
      if attached {
        assert SlotOk(id);
        ghost var before := Open();
        slots, works := slots[id := slots[id].(pending := slots[id].pending + 1)], works + multiset{id};
        assert Open() == before;
        forall i | i in slots ensures SlotOk(i) { if i != id { assert old(SlotOk(i)); } }
      }
    }

    /** Work that was begun ends, whether it threw or not. */
    method FinishWork(id: nat)
      requires Valid() && id in works
      modifies this
      ensures Valid() && works == old(works) - multiset{id} && old(slots)[id].pending > 0 && !old(slots)[id].released
      ensures slots == old(slots)[id := WithoutOne(old(slots)[id])]
      ensures active == old(active) - if Finished(slots[id]) then 1 else 0
    {
      forall i | i in slots ensures Agrees(slots[i], works[i]) { assert SlotOk(i); }
      WorkEnds(slots, works, id);
      var less := slots[id].(pending := slots[id].pending - 1);
      assert less.(released := Finished(less)) == WithoutOne(slots[id]) &&
               Finished(WithoutOne(slots[id])) == Finished(less);
      WrittenTwice(slots, id, less, WithoutOne(slots[id]));
      slots, works := slots[id := less], works - multiset{id};
      Release(id);
    }
  }

  /** At every moment the gate holds exactly the responses that are not ended or still have work. */
  lemma ActiveIsUnfinished(g: Gate)
    requires g.Valid()
    ensures g.active == |set id | id in g.slots && !Finished(g.slots[id])| <= g.limit
    ensures forall id | id in g.works :: id in g.slots && !g.slots[id].released
  {
    forall id | id in g.slots ensures g.slots[id].released <==> Finished(g.slots[id]) {
      assert g.SlotOk(id);
    }
    assert g.Open() == set id | id in g.slots && !Finished(g.slots[id]);
    forall id | id in g.works ensures id in g.slots && !g.slots[id].released {
      assert g.SlotOk(id);
    }
  }
}
