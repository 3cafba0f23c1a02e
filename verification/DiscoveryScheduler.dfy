/** The scheduler's observations, interleaved at every wait with new metadata, index refreshes and other
    observations. */
module DiscoveryScheduler {
  import opened Wrappers
  import opened Discovery

  datatype Failure = CallFailed

  datatype SchedulerConfig = SchedulerConfig(refreshMs: nat, maxInFlight: nat)

  /** A snapshot of a record, taken when the world was `seen`. */
  ghost predicate TakenFrom(record: Record, seen: World, w: World) {
    WorldOk(seen) && Kept(seen, w) && record.identity in seen.rows && seen.rows[record.identity] == record
  }

  /** What the record's last observation said is carried over when a new attempt fails. */
  function CarriedOver(record: Record, at: nat, generation: nat, failure: Option<string>): (o: Observation)
    ensures o.lastAttemptAt == at && o.failure == failure
    ensures record.observation.None? ==> o.observedAt.None? && o.result.None? && o.generation == generation
    ensures record.observation.Some? ==> && o.observedAt == record.observation.value.observedAt
                                         && o.result == record.observation.value.result
                                         && o.generation == record.observation.value.generation
  {
    if record.observation.Some?
    then Observation(record.observation.value.observedAt, record.observation.value.result, at,
                     record.observation.value.generation, failure)
    else Observation(None, None, at, generation, failure)
  }

  lemma CarriedOverBacked(record: Record, seen: World, w: World, at: nat, generation: nat, failure: Option<string>)
    requires WorldOk(w) && TakenFrom(record, seen, w)
    ensures CarriedOver(record, at, generation, failure).result.Some? <==>
              CarriedOver(record, at, generation, failure).observedAt.Some?
    ensures Guarded(w.rows, record.identity, record.revision, record.payloadHash) && record.observation.Some? &&
              record.observation.value.observedAt.Some? ==>
              Backed(w.events, record.identity, w.rows[record.identity], CarriedOver(record, at, generation, failure))
  {
    var id, o := record.identity, CarriedOver(record, at, generation, failure);
    assert RowOk(seen, id) && RowKept(seen, w, id);
    if Guarded(w.rows, id, record.revision, record.payloadHash) && o.observedAt.Some? {
      var e :| e in seen.events && MadeFrom(e, id, record, record.observation.value);
      assert e in w.events && MadeFrom(e, id, w.rows[id], o);
    }
  }

  /** What is made of an observer's answer, or of none. */
  function Judged(reply: Option<Response>, record: Record): (r: Response)
    ensures MatchesRecord(r, record)
    ensures r.state != Unreachable ==> reply == Some(r)
  {
    if reply.None? then Response(Unreachable, Some("OBSERVER_UNAVAILABLE"), None, None, None, [])
    else if !MatchesRecord(reply.value, record) then
      Response(Unreachable, Some("INVALID_OBSERVER_RESPONSE"), None, None, None, [])
    else reply.value
  }

  /** A result that fits the record and was found while the demand was active, at a generation that is still the
      same. */
  ghost predicate NewResult(record: Record, reply: Option<Response>, o: Observation, w: World) {
    && o.observedAt == Some(o.lastAttemptAt) && o.failure.None?
    && o.result == reply && o.result.Some?
    && MatchesRecord(o.result.value, record) && o.result.value.state != Unreachable
    && o.generation == Generation(w, record.identity)
    && EntryOf(w, record.identity) == Some(ActiveEntry(record.payload))
  }

  /** What an attempt leaves on its record: a new result, or what the record said before with a new time of attempt. */
  ghost predicate Attempted(record: Record, reply: Option<Response>, o: Observation, began: nat, w: World) {
    began <= o.lastAttemptAt <= w.now &&
    (NewResult(record, reply, o, w) || o == CarriedOver(record, o.lastAttemptAt, o.generation, o.failure))
  }

  /** Unless the record was replaced meanwhile, the attempt is stored on it. */
  ghost predicate AttemptStored(record: Record, reply: Option<Response>, began: nat, w: World) {
    Guarded(w.rows, record.identity, record.revision, record.payloadHash) ==>
      w.rows[record.identity].observation.Some? &&
        Attempted(record, reply, w.rows[record.identity].observation.value, began, w)
  }

  /** Of the records the tick works on, those with an unchanged revision are as they were, except perhaps for the
      observation of record x. */
  predicate Spared(a: Rows, b: Rows, own: set<nat>, x: Option<nat>) {
    forall id | id in own && id in a && id in b && a[id].revision == b[id].revision ::
      b[id] == if Some(id) == x then a[id].(observation := b[id].observation) else a[id]
  }

  /** What the world may become while the tick waits, or works on record x. */
  ghost predicate Steps(a: World, b: World, own: set<nat>, x: Option<nat>) {
    Kept(a, b) && Spared(a.rows, b.rows, own, x)
  }

  lemma StepsOn(a: World, b: World, c: World, own: set<nat>, x: nat)
    requires Kept(a, b) && Kept(b, c)
    requires Spared(a.rows, b.rows, own, None) || Spared(a.rows, b.rows, own, Some(x))
    requires Spared(b.rows, c.rows, own, None) || Spared(b.rows, c.rows, own, Some(x))
    ensures Steps(a, c, own, Some(x))
  {
    KeptOn(a, b, c);
    forall id | id in own && id in a.rows && id in c.rows && a.rows[id].revision == c.rows[id].revision
      ensures c.rows[id] == if id == x then a.rows[id].(observation := c.rows[id].observation) else a.rows[id]
    {
      assert RowKept(a, b, id) && RowKept(b, c, id);
    }
  }

  lemma StoringSpares(w: World, w': World, own: set<nat>, record: Record, o: Observation)
    requires w'.rows == ObservedRows(w.rows, record.identity, record.revision, record.payloadHash, o)
    ensures Spared(w.rows, w'.rows, own, Some(record.identity))
  {
  }

  /** What an undisturbed attempt stores: the reply, if the demand is active and the reply fits and says something, and
      otherwise what the record said before, with the reason. */
  ghost function Expected(record: Record, reply: Option<Response>, w: World): Observation {
    var id := record.identity;
    if EntryOf(w, id) != Some(ActiveEntry(record.payload)) then
      CarriedOver(record, w.now, Generation(w, id), Some("CANONICAL_INACTIVE"))
    else match reply
      case None => CarriedOver(record, w.now, Generation(w, id), Some("OBSERVER_UNAVAILABLE"))
      case Some(answer) =>
        if !MatchesRecord(answer, record) then
          CarriedOver(record, w.now, Generation(w, id), Some("INVALID_OBSERVER_RESPONSE"))
        else if answer.state == Unreachable then CarriedOver(record, w.now, Generation(w, id), answer.reason)
        else Observation(Some(w.now), reply, w.now, Generation(w, id), None)
  }

  /** Nothing happened but that this observation was handed in. */
  ghost predicate StoredAs(w: World, w': World, record: Record, o: Observation) {
    w' == w.(rows := ObservedRows(w.rows, record.identity, record.revision, record.payloadHash, o), events := w'.events)
  }

  ghost predicate QuietStep(w: World, w': World, record: Record, reply: Option<Response>) {
    StoredAs(w, w', record, Expected(record, reply, w))
  }

  lemma OutcomeExpected(w: World, w': World, record: Record, reply: Option<Response>)
    requires EntryOf(w, record.identity) == Some(ActiveEntry(record.payload))
    requires StoredAs(w, w', record, Outcome(record, Judged(reply, record), w.now, Generation(w, record.identity)))
    ensures QuietStep(w, w', record, reply)
  {
  }

  /** What is stored for an answer that was judged. */
  function Outcome(record: Record, result: Response, at: nat, generation: nat): Observation {
    if result.state == Unreachable then CarriedOver(record, at, generation, result.reason)
    else Observation(Some(at), Some(result), at, generation, None)
  }

  ghost predicate FromRows(records: seq<Record>, rows: Rows) {
    && (forall k | 0 <= k < |records| :: records[k].identity in rows && rows[records[k].identity] == records[k])
    && (forall k, l | 0 <= k < l < |records| :: records[k].identity != records[l].identity)
  }

  function Identities(records: seq<Record>): set<nat> {
    set k | 0 <= k < |records| :: records[k].identity
  }

  function ReplyOf(replies: map<nat, Response>, id: nat): Option<Response> {
    if id in replies then Some(replies[id]) else None
  }

  /** A record is due if its last attempt was a refresh interval ago, or before this process started. */
  ghost function Deadline(w: World, config: SchedulerConfig): int {
    var refreshed, started := w.now - config.refreshMs, w.startedAt - 1;
    if refreshed < started then started else refreshed
  }

  lemma DueAreDifferent(records: seq<Record>, rows: Rows, before: int, limit: nat)
    requires FirstDue(records, rows, before, limit)
    ensures FromRows(records, rows)
  {
    forall k, l | 0 <= k < l < |records| ensures records[k].identity != records[l].identity {
      assert Earlier(records[k], records[l]);
    }
  }

  ghost predicate Chosen(records: seq<Record>, n: nat, id: nat) {
    exists k :: 0 <= k < n && k < |records| && records[k].identity == id
  }

  /** The first n records carry the time of the attempt, and nothing else has changed. */
  ghost predicate MarkedFirst(a: Rows, b: Rows, records: seq<Record>, n: nat, time: nat) {
    && b.Keys == a.Keys
    && forall id | id in a :: b[id] == if Chosen(records, n, id) then a[id].(lastAttempt := time) else a[id]
  }

  /** Unless the record was replaced meanwhile, its last attempt is the one of this tick. */
  ghost predicate AttemptMarked(record: Record, began: nat, rows: Rows) {
    Guarded(rows, record.identity, record.revision, record.payloadHash) ==>
      rows[record.identity].lastAttempt == began
  }

  /** Unless the record was replaced meanwhile, it holds what the attempt that ended in world `at` has stored. */
  ghost predicate AttemptHeld(record: Record, reply: Option<Response>, began: nat, at: World, w: World) {
    && Kept(at, w) && at.now <= w.now
    && (Guarded(w.rows, record.identity, record.revision, record.payloadHash) ==>
        && w.rows[record.identity].observation.Some?
        && Attempted(record, reply, w.rows[record.identity].observation.value, began, at))
  }

  lemma JustHeld(record: Record, reply: Option<Response>, began: nat, w: World)
    requires AttemptStored(record, reply, began, w)
    ensures AttemptHeld(record, reply, began, w, w)
  {
    KeptSelf(w);
  }

  /** A record that is spared keeps what it holds. */
  lemma StillHeld(record: Record, reply: Option<Response>, began: nat, at: World, w: World, w': World, own: set<nat>,
                  x: nat, seen: World)
    requires AttemptHeld(record, reply, began, at, w) && Steps(w, w', own, Some(x)) && TakenFrom(record, seen, at)
    requires record.identity in own && record.identity != x
    ensures AttemptHeld(record, reply, began, at, w')
  {
    KeptOn(at, w, w');
    KeptOn(seen, at, w);
    assert RowKept(seen, w, record.identity) && RowKept(w, w', record.identity);
  }

  lemma StillMarked(record: Record, began: nat, w: World, w': World, own: set<nat>, x: nat, seen: World)
    requires AttemptMarked(record, began, w.rows) && Steps(w, w', own, Some(x)) && TakenFrom(record, seen, w)
    requires record.identity in own
    ensures AttemptMarked(record, began, w'.rows)
  {
    assert RowKept(seen, w, record.identity) && RowKept(w, w', record.identity);
  }

  ghost predicate AllMarked(records: seq<Record>, began: nat, rows: Rows) {
    forall k | 0 <= k < |records| :: AttemptMarked(records[k], began, rows)
  }

  /** The first n records hold what their attempts have stored. */
  ghost predicate AllHeld(records: seq<Record>, n: nat, replies: map<nat, Response>, began: nat, worlds: seq<World>,
                          w: World)
  {
    && n <= |records| && n <= |worlds|
    && forall k | 0 <= k < n ::
         AttemptHeld(records[k], ReplyOf(replies, records[k].identity), began, worlds[k], w)
  }

  ghost predicate AllTaken(records: seq<Record>, n: nat, worlds: seq<World>, seen: World) {
    n <= |records| && n <= |worlds| && forall k | 0 <= k < n :: TakenFrom(records[k], seen, worlds[k])
  }

  /** The state of a tick that has attempted the first i records. */
  ghost predicate InTick(records: seq<Record>, i: nat, replies: map<nat, Response>, worlds: seq<World>, seen: World,
                         w: World, going: bool)
  {
    && WorldOk(seen) && Kept(seen, w) && FromRows(records, seen.rows) && |worlds| == i <= |records|
    && AllMarked(records, seen.now, w.rows) && AllTaken(records, i, worlds, seen)
    && (going ==> AllHeld(records, i, replies, seen.now, worlds, w))
  }

  /** One more record has been attempted, in a step of the world from w to w'. */
  lemma AllStill(records: seq<Record>, i: nat, replies: map<nat, Response>, worlds: seq<World>, seen: World, w: World,
                 w': World, going: bool, goes: bool)
    requires i < |records| && InTick(records, i, replies, worlds, seen, w, going) && TakenFrom(records[i], seen, w')
    requires Steps(w, w', Identities(records), Some(records[i].identity)) && (goes ==> going)
    requires goes ==> AttemptStored(records[i], ReplyOf(replies, records[i].identity), seen.now, w')
    ensures InTick(records, i + 1, replies, worlds + [w'], seen, w', goes)
  {
    var own, more := Identities(records), worlds + [w'];
    forall k | 0 <= k < |records| ensures AttemptMarked(records[k], seen.now, w'.rows) {
      StillMarked(records[k], seen.now, w, w', own, records[i].identity, seen);
    }
    forall k | 0 <= k < i + 1 ensures TakenFrom(records[k], seen, more[k]) {
      assert k < i ==> more[k] == worlds[k];
    }
    if goes {
      forall k | 0 <= k < i + 1
        ensures AttemptHeld(records[k], ReplyOf(replies, records[k].identity), seen.now, more[k], w')
      {
        var reply := ReplyOf(replies, records[k].identity);
        if k < i {
          assert more[k] == worlds[k];
          StillHeld(records[k], reply, seen.now, worlds[k], w, w', own, records[i].identity, seen);
        } else {
          JustHeld(records[k], reply, seen.now, w');
        }
      }
    }
  }

  /** Undisturbed: the first n records are observed, the rest of them marked, and all other rows are as they were. */
  ghost predicate QuietRows(seen: World, rows: Rows, records: seq<Record>, replies: map<nat, Response>, n: nat) {
    && rows.Keys == seen.rows.Keys
    && forall id | id in rows :: rows[id] == QuietRow(seen, seen.rows[id], records, replies, n)
  }

  ghost function QuietRow(seen: World, row: Record, records: seq<Record>, replies: map<nat, Response>, n: nat): Record {
    if Chosen(records, n, row.identity) then
      row.(lastAttempt := seen.now, observation := Some(Expected(row, ReplyOf(replies, row.identity), seen)))
    else if Chosen(records, |records|, row.identity) then row.(lastAttempt := seen.now)
    else row
  }

  ghost predicate QuietUpTo(seen: World, w: World, records: seq<Record>, replies: map<nat, Response>, i: nat) {
    w == seen.(rows := w.rows, events := w.events) && QuietRows(seen, w.rows, records, replies, i)
  }

  /** After an undisturbed tick the observer's answer on an active demand is what is shown. */
  lemma AnswerIsShown(seen: World, w: World, records: seq<Record>, replies: map<nat, Response>, id: nat, staleMs: nat)
    requires WorldOk(seen) && QuietUpTo(seen, w, records, replies, |records|) && staleMs > 0
    requires id in seen.rows && Chosen(records, |records|, id) && id in replies
    requires EntryOf(seen, id) == Some(ActiveEntry(seen.rows[id].payload))
    requires MatchesRecord(replies[id], seen.rows[id]) && replies[id].state != Unreachable
    ensures ServiceView(w, id, staleMs) ==
              if replies[id].state == MetadataInvalid then Invalid else Shown(replies[id].state)
  {
    assert RowOk(seen, id);
    assert w.rows[id] == QuietRow(seen, seen.rows[id], records, replies, |records|);
  }

  lemma MarkedNow(seen: World, rows: Rows, records: seq<Record>, replies: map<nat, Response>)
    requires WorldOk(seen) && FromRows(records, seen.rows)
    requires MarkedFirst(seen.rows, rows, records, |records|, seen.now)
    ensures AllMarked(records, seen.now, rows) && QuietRows(seen, rows, records, replies, 0)
  {
    forall id | id in seen.rows ensures seen.rows[id].identity == id { assert RowOk(seen, id); }
    forall k | 0 <= k < |records| ensures AttemptMarked(records[k], seen.now, rows) {
      assert Chosen(records, |records|, records[k].identity);
    }
  }

  lemma QuietNext(seen: World, w: World, w': World, records: seq<Record>, replies: map<nat, Response>, i: nat)
    requires WorldOk(seen) && FromRows(records, seen.rows) && i < |records|
    requires QuietUpTo(seen, w, records, replies, i)
    requires QuietStep(w, w', records[i], ReplyOf(replies, records[i].identity))
    ensures QuietUpTo(seen, w', records, replies, i + 1)
  {
    var r := records[i];
    assert Expected(r, ReplyOf(replies, r.identity), w) == Expected(r, ReplyOf(replies, r.identity), seen);
    assert Chosen(records, |records|, r.identity);
    NotYet(records, seen.rows, i);
    forall id | id in w'.rows
      ensures w'.rows[id] == QuietRow(seen, seen.rows[id], records, replies, i + 1)
    {
      assert RowOk(seen, id);
      OneMoreChosen(records, i, id);
    }
  }

  lemma NotYet(records: seq<Record>, rows: Rows, i: nat)
    requires FromRows(records, rows) && i < |records|
    ensures !Chosen(records, i, records[i].identity)
  {
  }

  lemma OneMoreChosen(records: seq<Record>, i: nat, id: nat)
    requires i < |records|
    ensures Chosen(records, i + 1, id) <==> Chosen(records, i, id) || id == records[i].identity
  {
    if Chosen(records, i, id) {
      var k :| 0 <= k < i && records[k].identity == id;
      assert k < i + 1;
    }
  }

  lemma StoredAttempt(record: Record, reply: Option<Response>, rows: Rows, w: World, o: Observation, began: nat)
    requires w.rows == ObservedRows(rows, record.identity, record.revision, record.payloadHash, o)
    requires Attempted(record, reply, o, began, w)
    ensures AttemptStored(record, reply, began, w)
    ensures Guarded(w.rows, record.identity, record.revision, record.payloadHash) ==>
              w.rows[record.identity].observation == Some(o)
  {
  }

  class Service {
    const store: DiscoveryStore
    var entries: map<nat, Entry>
    var versions: map<nat, nat>
    var counter: nat
    var now: nat
    var startedAt: nat
    var run: nat
    /** The observations stored so far, and how often each entry was read: a record for the proofs, used by no code. */
    var events: set<Event>
    var readings: map<nat, nat>
    var running: bool
    var stopped: bool
    /** Nobody else acts and the index can always be read. */
    const quiet: bool

    function Now(): World
      reads this, store
    {
      World(store.rows, entries, versions, counter, now, startedAt, run, events, readings)
    }

    ghost predicate Sound()
      reads this, store
    {
      WorldOk(Now())
    }

    constructor (start: nat, quiet: bool)
      ensures Sound() && fresh(store) && Strict(Now()) && !running && !stopped && this.quiet == quiet
      ensures Now() == World(map[], map[], map[], 0, start, start, 0, {}, map[])
    {
      store := new DiscoveryStore();
      entries, versions, counter, now, startedAt, run := map[], map[], 0, start, start, 0;
      events, readings, running, stopped, this.quiet := {}, map[], false, false, quiet;
    }

    /** Everything that others may do meanwhile, in the same process run. Only the tick itself writes attempts and
        observations, so a record it works on changes only by a new revision. */
    method Others(own: set<nat>)
      requires Sound()
      modifies this`entries, this`versions, this`counter, this`now, this`events, this`readings, this`stopped, store
      ensures Sound() && Steps(old(Now()), Now(), own, None) && (old(stopped) ==> stopped)
      ensures quiet ==> Now() == old(Now()) && stopped == old(stopped)
    {
      KeptSelf(Now());
      if quiet { return; }
      var next: World :| WorldOk(next) && Kept(Now(), next) && Spared(store.rows, next.rows, own, None);
      assert WorldOk(next) && Kept(Now(), next) && Spared(store.rows, next.rows, own, None);
      store.rows, entries, versions, counter := next.rows, next.entries, next.versions, next.counter;
      now, events, readings := next.now, next.events, next.readings;
      assert Now() == next;
      if * { stopped := true; }
    }

    /** Refreshes the index, then asks whether the record still describes an active demand. */
    method Current(record: Record, own: set<nat>) returns (r: Result<bool, Failure>)
      requires Sound()
      modifies this`entries, this`versions, this`counter, this`now, this`events, this`readings, this`stopped, store
      ensures Sound() && Steps(old(Now()), Now(), own, None) && (old(stopped) ==> stopped)
      ensures r.Ok? ==> r.value == (EntryOf(Now(), record.identity) == Some(ActiveEntry(record.payload)))
      ensures quiet ==> Now() == old(Now()) && stopped == old(stopped) && r.Ok?
    {
      Others(own);
      if !quiet {
        if * { return Err(CallFailed); }
      }
      r := Ok(record.identity in entries && entries[record.identity] == ActiveEntry(record.payload));
    }

    /** Stores an observation that is backed, or has no date. */
    method Keep(record: Record, o: Observation)
      requires Sound() && (o.result.Some? <==> o.observedAt.Some?)
      requires Guarded(store.rows, record.identity, record.revision, record.payloadHash) && o.observedAt.Some? ==>
                 Backed(events, record.identity, store.rows[record.identity], o)
      modifies store
      ensures Sound() && Kept(old(Now()), Now())
      ensures store.rows == ObservedRows(old(store.rows), record.identity, record.revision, record.payloadHash, o)
    {
      KeptSelf(Now());
      if Guarded(store.rows, record.identity, record.revision, record.payloadHash) {
        StoredStep(Now(), record.identity, o);
      }
      var changed := store.SetObservation(record.identity, record.revision, record.payloadHash, o);
    }

    method Fail(record: Record, reason: string, ghost seen: World)
      requires Sound() && TakenFrom(record, seen, Now())
      modifies store
      ensures Sound() && Kept(old(Now()), Now())
      ensures !stopped ==>
                store.rows == ObservedRows(old(store.rows), record.identity, record.revision, record.payloadHash,
                CarriedOver(record, now, Generation(old(Now()), record.identity), Some(reason)))
      ensures stopped ==> store.rows == old(store.rows)
    {
      KeptSelf(Now());
      if !stopped {
        KeepPrevious(record, now, Generation(Now(), record.identity), Some(reason), seen);
      }
    }

    /** A new result, observed at `at` since the world was `begun`, whose generation is unchanged. */
    method KeepResult(record: Record, result: Response, at: nat, generation: nat, readBefore: nat, ghost seen: World,
                      ghost begun: World)
      requires Sound() && TakenFrom(record, seen, Now()) && WorldOk(begun) && Kept(begun, Now())
      requires begun.now <= at <= now &&
                 generation == Generation(begun, record.identity) == Generation(Now(), record.identity)
      requires readBefore == Reads(begun, record.identity)
      requires MatchesRecord(result, record) && EntryOf(Now(), record.identity) == Some(ActiveEntry(record.payload))
      modifies this`events, store
      ensures Sound() && Kept(old(Now()), Now())
      ensures store.rows == ObservedRows(old(store.rows), record.identity, record.revision, record.payloadHash,
                                         Observation(Some(at), Some(result), at, generation, None))
    {
      KeptSelf(Now());
      if Guarded(store.rows, record.identity, record.revision, record.payloadHash) {
        ghost var before := Now();
        assert RowKept(seen, before, record.identity);
        var e := Event(run, record.identity, record.revision, record.payload, at, result, generation, readBefore);
        LoggedStep(begun, Now(), e);
        events := events + {e};
        ghost var logged := Now();
        var o := Observation(Some(at), Some(result), at, generation, None);
        assert MadeFrom(e, record.identity, store.rows[record.identity], o);
        Keep(record, o);
        KeptOn(before, logged, Now());
      }
    }

    /** Marks the attempts, so that the records come last in the next tick. */
    method MarkAll(records: seq<Record>)
      requires Sound() && FromRows(records, store.rows)
      modifies store
      ensures Sound() && Kept(old(Now()), Now())
      ensures MarkedFirst(old(store.rows), store.rows, records, |records|, now)
    {
      ghost var before := Now();
      KeptSelf(before);
      for i := 0 to |records|
        invariant Sound() && Kept(before, Now()) && MarkedFirst(before.rows, store.rows, records, i, now)
      {
        ghost var w := Now();
        MarkStep(w, records[i].identity, records[i].revision, now);
        store.MarkAttempt(records[i].identity, records[i].revision, now);
        KeptOn(before, w, Now());
        MarkedNext(before.rows, w.rows, store.rows, records, i, now);
      }
    }

    /** Current, for a record taken when the world was `seen`. */
    method CurrentSince(record: Record, own: set<nat>, ghost seen: World) returns (r: Result<bool, Failure>)
      requires Sound() && TakenFrom(record, seen, Now())
      modifies this`entries, this`versions, this`counter, this`now, this`events, this`readings, this`stopped, store
      ensures Sound() && Steps(old(Now()), Now(), own, None) && TakenFrom(record, seen, Now())
      ensures old(stopped) ==> stopped
      ensures r.Ok? ==> r.value == (EntryOf(Now(), record.identity) == Some(ActiveEntry(record.payload)))
      ensures quiet ==> Now() == old(Now()) && stopped == old(stopped) && r.Ok?
    {
      ghost var before := Now();
      r := Current(record, own);
      KeptOn(seen, before, Now());
    }

    function Reason(active: Result<bool, Failure>): string {
      if active.Ok? then "CANONICAL_INACTIVE" else "CANONICAL_UNAVAILABLE"
    }

    /** One record of a tick, once its attempt is marked: check, observe, check again, store. `reply` is what the
        observer answers, None if it does not. */
    method ObserveRecord(record: Record, own: set<nat>, reply: Option<Response>, ghost seen: World)
      requires Sound() && TakenFrom(record, seen, Now())
      modifies this`entries, this`versions, this`counter, this`now, this`events, this`readings, this`stopped, store
      ensures Sound() && TakenFrom(record, seen, Now()) && (old(stopped) ==> stopped)
      ensures Steps(old(Now()), Now(), own, Some(record.identity))
      ensures !stopped ==> AttemptStored(record, reply, seen.now, Now())
      ensures quiet && !old(stopped) ==> QuietStep(old(Now()), Now(), record, reply) && !stopped
    {
      ghost var start := Now();
      var active := CurrentSince(record, own, seen);
      ghost var checked := Now();
      if active != Ok(true) {
        FailSince(record, Reason(active), own, reply, seen);
      } else {
        ObserveActive(record, own, reply, seen);
      }
      StepsOn(start, checked, Now(), own, record.identity);
    }

    /** The generation, the observer's answer, and the second check, at three instants. */
    method Observed(record: Record, own: set<nat>, reply: Option<Response>, ghost seen: World)
      returns (generation: nat, readBefore: nat, result: Response, at: nat, active: Result<bool, Failure>,
               ghost begun: World)
      requires Sound() && TakenFrom(record, seen, Now())
      modifies this`entries, this`versions, this`counter, this`now, this`events, this`readings, this`stopped, store
      ensures Sound() && TakenFrom(record, seen, Now()) && WorldOk(begun) && Kept(begun, Now())
      ensures begun == old(Now()) && Steps(begun, Now(), own, Some(record.identity)) && (old(stopped) ==> stopped)
      ensures seen.now <= begun.now <= at <= now && generation == Generation(begun, record.identity)
      ensures readBefore == Reads(begun, record.identity) && result == Judged(reply, record)
      ensures active.Ok? ==> active.value == (EntryOf(Now(), record.identity) == Some(ActiveEntry(record.payload)))
      ensures quiet ==> Now() == old(Now()) && stopped == old(stopped) && active.Ok?
    {
      begun := Now();
      generation, readBefore := Generation(Now(), record.identity), Reads(Now(), record.identity);
      Others(own);
      result, at := Judged(reply, record), now;
      ghost var observed := Now();
      KeptOn(seen, begun, observed);
      active := CurrentSince(record, own, seen);
      StepsOn(begun, observed, Now(), own, record.identity);
    }

    method ObserveActive(record: Record, own: set<nat>, reply: Option<Response>, ghost seen: World)
      requires Sound() && TakenFrom(record, seen, Now())
      requires EntryOf(Now(), record.identity) == Some(ActiveEntry(record.payload))
      modifies this`entries, this`versions, this`counter, this`now, this`events, this`readings, this`stopped, store
      ensures Sound() && TakenFrom(record, seen, Now()) && (old(stopped) ==> stopped)
      ensures Steps(old(Now()), Now(), own, Some(record.identity))
      ensures !stopped ==> AttemptStored(record, reply, seen.now, Now())
      ensures quiet && !old(stopped) ==> QuietStep(old(Now()), Now(), record, reply) && !stopped
    {
      var generation, readBefore, result, at, active;
      ghost var begun;
      generation, readBefore, result, at, active, begun := Observed(record, own, reply, seen);
      ghost var checked := Now();
      Store(record, own, result, at, generation, readBefore, active, reply, seen, begun);
      StepsOn(begun, checked, Now(), own, record.identity);
      if quiet && !stopped {
        assert checked == begun && at == begun.now && active == Ok(true);
        assert StoredAs(begun, Now(), record, Outcome(record, result, at, generation));
        OutcomeExpected(begun, Now(), record, reply);
      }
    }

    /** Stores the answer unless the demand is no longer active, its entry was read again, or the service has
        stopped. */
    method Store(record: Record, own: set<nat>, result: Response, at: nat, generation: nat, readBefore: nat,
                 active: Result<bool, Failure>, ghost reply: Option<Response>, ghost seen: World, ghost begun: World)
      requires Sound() && TakenFrom(record, seen, Now()) && WorldOk(begun) && Kept(begun, Now())
      requires seen.now <= begun.now <= at <= now && generation == Generation(begun, record.identity)
      requires readBefore == Reads(begun, record.identity) && result == Judged(reply, record)
      requires active == Ok(true) ==> EntryOf(Now(), record.identity) == Some(ActiveEntry(record.payload))
      modifies this`events, store
      ensures Sound() && TakenFrom(record, seen, Now())
      ensures Steps(old(Now()), Now(), own, Some(record.identity))
      ensures !stopped ==> AttemptStored(record, reply, seen.now, Now())
      ensures stopped ==> store.rows == old(store.rows)
      ensures !stopped && active == Ok(true) && generation == Generation(old(Now()), record.identity) ==>
                StoredAs(old(Now()), Now(), record, Outcome(record, result, at, generation))
    {
      ghost var checked := Now();
      if active != Ok(true) {
        FailSince(record, Reason(active), own, reply, seen);
      } else if Generation(Now(), record.identity) != generation {
        FailSince(record, "CANONICAL_CHANGED", own, reply, seen);
      } else if !stopped {
        Conclude(record, result, at, generation, readBefore, reply, seen, begun);
        KeptOn(seen, checked, Now());
        StoringSpares(checked, Now(), own, record, Outcome(record, result, at, generation));
      } else {
        KeptSelf(checked);
      }
    }

    /** An answer without a result leaves the previous one; any other is stored. */
    method Conclude(record: Record, result: Response, at: nat, generation: nat, readBefore: nat,
                    ghost reply: Option<Response>, ghost seen: World, ghost begun: World)
      requires Sound() && TakenFrom(record, seen, Now()) && WorldOk(begun) && Kept(begun, Now())
      requires seen.now <= begun.now <= at <= now && readBefore == Reads(begun, record.identity)
      requires generation == Generation(begun, record.identity) == Generation(Now(), record.identity)
      requires result == Judged(reply, record)
      requires EntryOf(Now(), record.identity) == Some(ActiveEntry(record.payload))
      modifies this`events, store
      ensures Sound() && Kept(old(Now()), Now()) && AttemptStored(record, reply, seen.now, Now())
      ensures store.rows == ObservedRows(old(store.rows), record.identity, record.revision, record.payloadHash,
                                         Outcome(record, result, at, generation))
    {
      ghost var before := Now();
      if result.state == Unreachable {
        KeepPrevious(record, at, generation, result.reason, seen);
      } else {
        KeepResult(record, result, at, generation, readBefore, seen, begun);
      }
      StoredAttempt(record, reply, before.rows, Now(), Outcome(record, result, at, generation), seen.now);
    }

    /** The previous result, with the date and reason of this attempt. */
    method KeepPrevious(record: Record, at: nat, generation: nat, reason: Option<string>, ghost seen: World)
      requires Sound() && TakenFrom(record, seen, Now())
      modifies store
      ensures Sound() && Kept(old(Now()), Now())
      ensures store.rows == ObservedRows(old(store.rows), record.identity, record.revision, record.payloadHash,
                                         CarriedOver(record, at, generation, reason))
    {
      CarriedOverBacked(record, seen, Now(), at, generation, reason);
      Keep(record, CarriedOver(record, at, generation, reason));
    }

    method FailSince(record: Record, reason: string, own: set<nat>, ghost reply: Option<Response>, ghost seen: World)
      requires Sound() && TakenFrom(record, seen, Now())
      modifies store
      ensures Sound() && TakenFrom(record, seen, Now())
      ensures Steps(old(Now()), Now(), own, Some(record.identity))
      ensures !stopped ==> AttemptStored(record, reply, seen.now, Now())
      ensures stopped ==> store.rows == old(store.rows)
      ensures !stopped ==>
                StoredAs(old(Now()), Now(), record,
                         CarriedOver(record, now, Generation(old(Now()), record.identity), Some(reason)))
    {
      ghost var before := Now();
      Fail(record, reason, seen);
      KeptOn(seen, before, Now());
      if !stopped {
        StoringSpares(before, Now(), own, record,
                      CarriedOver(record, now, Generation(before, record.identity), Some(reason)));
      }
    }

    /** The marked records one after the other; `worlds` lists the worlds in which their attempts ended. */
    method ObserveAll(records: seq<Record>, replies: map<nat, Response>, ghost seen: World)
      returns (ghost worlds: seq<World>)
      requires Sound() && WorldOk(seen) && Kept(seen, Now()) && FromRows(records, seen.rows) && now == seen.now
      requires MarkedFirst(seen.rows, store.rows, records, |records|, seen.now)
      modifies this`entries, this`versions, this`counter, this`now, this`events, this`readings, this`stopped, store
      ensures Sound() && Kept(seen, Now())
      ensures AllMarked(records, seen.now, store.rows)
      ensures !stopped ==> AllHeld(records, |records|, replies, seen.now, worlds, Now())
      ensures quiet && !old(stopped) && old(Now()) == seen.(rows := old(store.rows)) ==>
                QuietUpTo(seen, Now(), records, replies, |records|)
    {
      worlds := [];
      MarkedNow(seen, store.rows, records, replies);
      ghost var calm := quiet && !stopped && Now() == seen.(rows := store.rows);
      for i := 0 to |records|
        invariant Sound() && InTick(records, i, replies, worlds, seen, Now(), !stopped)
        invariant calm ==> !stopped && QuietUpTo(seen, Now(), records, replies, i)
      {
        ObserveNext(records, i, replies, worlds, seen);
        worlds := worlds + [Now()];
      }
    }

    method ObserveNext(records: seq<Record>, i: nat, replies: map<nat, Response>, ghost worlds: seq<World>,
                       ghost seen: World)
      requires Sound() && i < |records| && InTick(records, i, replies, worlds, seen, Now(), !stopped)
      modifies this`entries, this`versions, this`counter, this`now, this`events, this`readings, this`stopped, store
      ensures Sound() && InTick(records, i + 1, replies, worlds + [Now()], seen, Now(), !stopped)
      ensures quiet && !old(stopped) && QuietUpTo(seen, old(Now()), records, replies, i) ==>
                !stopped && QuietUpTo(seen, Now(), records, replies, i + 1)
    {
      ghost var w := Now();
      ghost var going := !stopped;
      ObserveRecord(records[i], Identities(records), ReplyOf(replies, records[i].identity), seen);
      AllStill(records, i, replies, worlds, seen, w, Now(), going, !stopped);
      if quiet && going && QuietUpTo(seen, w, records, replies, i) { QuietNext(seen, w, Now(), records, replies, i); }
    }

    /** One tick. A tick that is still running, or a stopped scheduler, lets the next one pass. Otherwise the records
        whose last attempt is longest ago are attempted, at most so many, and no others; `replies` are the answers of
        the observer. */
    method Tick(config: SchedulerConfig, replies: map<nat, Response>)
      returns (ghost attempted: seq<Record>, ghost worlds: seq<World>)
      requires Sound()
      modifies this`entries, this`versions, this`counter, this`now, this`events, this`readings, this`stopped,
          this`running, store
      ensures Sound() && Kept(old(Now()), Now())
      ensures if old(running) || old(stopped) then Now() == old(Now()) && running == old(running) else !running
      ensures !old(running) && !old(stopped) ==>
                && FirstDue(attempted, old(store.rows), Deadline(old(Now()), config), config.maxInFlight)
                && AllMarked(attempted, old(now), store.rows)
                && (!stopped ==> AllHeld(attempted, |attempted|, replies, old(now), worlds, Now()))
      ensures quiet && !old(running) && !old(stopped) ==>
                QuietUpTo(old(Now()), Now(), attempted, replies, |attempted|)
    {
      KeptSelf(Now());
      attempted, worlds := [], [];
      if running || stopped { return; }
      running := true;
      attempted, worlds := ObserveDue(config, replies);
      running := false;
    }

    /** Marks the records that are due and observes them. */
    method ObserveDue(config: SchedulerConfig, replies: map<nat, Response>)
      returns (ghost attempted: seq<Record>, ghost worlds: seq<World>)
      requires Sound() && !stopped && running
      modifies this`entries, this`versions, this`counter, this`now, this`events, this`readings, this`stopped, store
      ensures Sound() && Kept(old(Now()), Now())
      ensures FirstDue(attempted, old(store.rows), Deadline(old(Now()), config), config.maxInFlight)
      ensures AllMarked(attempted, old(now), store.rows)
      ensures !stopped ==> AllHeld(attempted, |attempted|, replies, old(now), worlds, Now())
      ensures quiet ==> QuietUpTo(old(Now()), Now(), attempted, replies, |attempted|)
    {
      forall i | i in store.rows ensures store.rows[i].identity == i { assert RowOk(Now(), i); }
      var before := if now - config.refreshMs > startedAt - 1 then now - config.refreshMs else startedAt - 1;
      var records := store.Due(before, config.maxInFlight);
      DueAreDifferent(records, store.rows, before, config.maxInFlight);
      attempted := records;
      ghost var seen := Now();
      MarkAll(records);
      worlds := ObserveAll(records, replies, seen);
    }

    // -------------------------------------------------------------- the rest of the process

    method PutMetadata(identity: nat, revision: nat, payload: Metadata, payloadHash: nat) returns (r: PutResult)
      requires Sound()
      modifies store
      ensures Sound() && Kept(old(Now()), Now())
      ensures store.rows == PutRows(old(store.rows), identity, revision, payload, payloadHash)
    {
      PutStep(Now(), identity, revision, payload, payloadHash);
      r := store.Put(identity, revision, payload, payloadHash);
    }

    /** An index refresh that reads one entry. */
    method ReadIndex(id: nat, entry: Entry)
      requires Sound()
      modifies this`entries, this`versions, this`counter, this`readings
      ensures Sound() && Kept(old(Now()), Now()) && Now() == ReadAgain(old(Now()), id, entry)
    {
      ghost var w := Now();
      ReadAgainStep(w, id, entry);
      readings := readings[id := Reads(Now(), id) + 1];
      entries, versions, counter := entries[id := entry], versions[id := counter + 1], counter + 1;
      assert Now() == ReadAgain(w, id, entry);
    }

    /** A new process on the same database. */
    method Restart(elapsed: nat)
      requires Sound()
      modifies this
      ensures Sound() && run == old(run) + 1 && store.rows == old(store.rows)
      ensures entries == map[] && versions == map[] && counter == 0 && now == startedAt == old(now) + elapsed
      ensures events == old(events) && forall e | e in events :: e.run < run
      ensures elapsed > 0 ==> Strict(Now())
      ensures !running && !stopped
    {
      RestartStep(Now(), now + elapsed);
      ghost var before := Now();
      entries, versions, counter, now := map[], map[], 0, now + elapsed;
      startedAt, run, running, stopped := now, run + 1, false, false;
      forall e | e in events ensures e.run < run { assert EventOk(before, e); }
      forall e | e in events && e.run < run ensures elapsed > 0 ==> e.observedAt < startedAt {
        assert EventOk(before, e);
      }
    }
  }

  lemma MarkedNext(a: Rows, b: Rows, c: Rows, records: seq<Record>, i: nat, time: nat)
    requires FromRows(records, a) && i < |records| && MarkedFirst(a, b, records, i, time)
    requires var r := records[i];
             c == if r.identity in b && b[r.identity].revision == r.revision
                  then b[r.identity := b[r.identity].(lastAttempt := time)] else b
    ensures MarkedFirst(a, c, records, i + 1, time)
  {
    NotYet(records, a, i);
    forall id | id in a ensures Chosen(records, i + 1, id) <==> Chosen(records, i, id) || id == records[i].identity {
      OneMoreChosen(records, i, id);
    }
  }

  lemma MarkStep(w: World, id: nat, revision: nat, time: nat)
    requires WorldOk(w)
    ensures var rows := if id in w.rows && w.rows[id].revision == revision
                        then w.rows[id := w.rows[id].(lastAttempt := time)] else w.rows;
            WorldOk(w.(rows := rows)) && Kept(w, w.(rows := rows))
  {
    if id in w.rows && w.rows[id].revision == revision {
      var w' := w.(rows := w.rows[id := w.rows[id].(lastAttempt := time)]);
      forall i | i in w'.rows ensures RowOk(w', i) {
        assert RowOk(w, i);
        if w.rows[i].observation.Some? && w.rows[i].observation.value.observedAt.Some? {
          var e :| e in w.events && MadeFrom(e, i, w.rows[i], w.rows[i].observation.value);
          assert MadeFrom(e, i, w'.rows[i], w'.rows[i].observation.value);
        }
      }
      RowsStep(w, w');
    } else {
      KeptSelf(w);
    }
  }

  datatype Task = Metadatum(identity: nat, revision: nat, payload: Metadata, payloadHash: nat)
                | Observe(config: SchedulerConfig, replies: map<nat, Response>)
                | Elapse
                | Reboot(elapsed: nat)

  method Perform(service: Service, task: Task)
    requires service.Sound()
    modifies service, service.store
    ensures service.Sound() && service.run == old(service.run) + if task.Reboot? then 1 else 0
    ensures old(Strict(service.Now())) && (task.Reboot? ==> task.elapsed > 0) ==> Strict(service.Now())
  {
    match task
    case Metadatum(identity, revision, payload, payloadHash) =>
      var _ := service.PutMetadata(identity, revision, payload, payloadHash);
    case Observe(config, replies) =>
      ghost var attempted, worlds := service.Tick(config, replies);
    case Elapse =>
      service.Others({});
    case Reboot(elapsed) =>
      service.Restart(elapsed);
  }

  function Reboots(tasks: seq<Task>): nat {
    if tasks == [] then 0 else Reboots(tasks[..|tasks| - 1]) + if tasks[|tasks| - 1].Reboot? then 1 else 0
  }

  /** Whole runs with restarts: if the clock moves on across every restart, whatever is ever shown as compatible was
      observed in the run that shows it. */
  method Run(tasks: seq<Task>, start: nat, quiet: bool) returns (service: Service)
    ensures service.Sound() && service.run == Reboots(tasks)
    ensures (forall i | 0 <= i < |tasks| && tasks[i].Reboot? :: tasks[i].elapsed > 0) ==> Strict(service.Now())
  {
    service := new Service(start, quiet);
    ghost var strict := forall i | 0 <= i < |tasks| && tasks[i].Reboot? :: tasks[i].elapsed > 0;
    for i := 0 to |tasks|
      invariant service.run == Reboots(tasks[..i])
      invariant fresh(service) && fresh(service.store) && service.Sound() && (strict ==> Strict(service.Now()))
    {
      Perform(service, tasks[i]);
      assert tasks[..i + 1][..i] == tasks[..i];
    }
    assert tasks[..|tasks|] == tasks;
  }

  // ---------------------------------------------------------------- a restart in the same millisecond

  const SAMPLE := Metadata(1, 2, 3, [Target(4, 5, 6)], 7)

  const OFFER := Offer(Target(4, 5, 6), 9, 10, 11, Some(10), Some(11))

  const ANSWER := Response(Compatible, None, Some(1), Some(7), Some(8), [OFFER])

  /** The record after its service was found compatible at `at`. */
  function SampleRecord(at: nat): Record {
    Record(1, 1, SAMPLE, 12, Some(Observation(Some(at), Some(ANSWER), at, 1, None)), 0)
  }

  lemma SampleFits(at: nat)
    ensures MatchesRecord(ANSWER, SampleRecord(at))
  {
    assert ANSWER.offers[0].target in SAMPLE.targets;
  }

  method SampleObserved(start: nat) returns (service: Service)
    ensures fresh(service) && fresh(service.store) && service.Sound()
    ensures service.now == start && service.store.rows == map[1 := SampleRecord(start)]
  {
    service := new Service(start, true);
    var _ := service.PutMetadata(1, 1, SAMPLE, 12);
    service.ReadIndex(1, ActiveEntry(SAMPLE));
    var record := service.store.rows[1];
    ghost var begun := service.Now();
    KeptSelf(begun);
    SampleFits(start);
    service.KeepResult(record, ANSWER, start, 1, 1, begun, begun);
  }

  /** Metadata is put, its demand indexed, the service found compatible, the process restarted within the millisecond
      and the demand indexed again: the service is shown as compatible, on no observation of the process that shows
      it. */
  method SameMillisecondRun(start: nat, staleMs: nat) returns (service: Service)
    requires staleMs > 0
    ensures service.Sound() && 1 in service.entries && 1 in service.store.rows
    ensures ServiceView(service.Now(), 1, staleMs) == Shown(Compatible)
    ensures !exists e :: RestsOnThisRun(service.Now(), 1, Compatible, e)
  {
    service := SampleObserved(start);
    service.Restart(0);
    service.ReadIndex(1, ActiveEntry(SAMPLE));
    SampleFits(start);
  }
}
