/** Discovery: service metadata put by their builders, observations of the services made by a scheduler while
    metadata and demand index change underneath, and the view that is shown of both.

    One deployment is modelled, so a record's identity is its demand id. */
module Discovery {
  import opened Wrappers
  import opened Arithmetic

  datatype Target = Target(network: nat, asset: nat, payTo: nat)

  /** The signed payload, as far as the code looks into it; `requestHash` is the hash of the request it describes. */
  datatype Metadata = Metadata(builder: nat, serviceUrl: nat, evidenceHash: nat, targets: seq<Target>, requestHash: nat)

  datatype Offer = Offer(target: Target, amount: nat, transferMethod: nat, paymentFlow: nat,
                         extraMethod: Option<nat>, extraFlow: Option<nat>)

  datatype ServiceState = Compatible | Incompatible | Unreachable | MetadataInvalid

  /** An observer's answer that fits the response schema. */
  datatype Response = Response(state: ServiceState, reason: Option<string>, metadataRevision: Option<nat>,
                               requestHash: Option<nat>, blockHash: Option<nat>, offers: seq<Offer>)

  datatype Observation = Observation(observedAt: Option<nat>, result: Option<Response>, lastAttemptAt: nat,
                                     generation: nat, failure: Option<string>)

  datatype Record = Record(identity: nat, revision: nat, payload: Metadata, payloadHash: nat,
                           observation: Option<Observation>, lastAttempt: nat)

  type Rows = map<nat, Record>


  // ---------------------------------------------------------------- the store

  /** Longest without an attempt first. */
  predicate Sooner(a: Record, b: Record) {
    a.lastAttempt < b.lastAttempt || (a.lastAttempt == b.lastAttempt && a.identity < b.identity)
  }

  function DueIds(rows: Rows, before: int): set<nat> {
    set id | id in rows && rows[id].lastAttempt <= before
  }

  /** a is asked about before b: its last attempt is longer ago, or as long and its identity smaller. */
  ghost predicate Earlier(a: Record, b: Record) {
    a.lastAttempt < b.lastAttempt || (a.lastAttempt == b.lastAttempt && a.identity < b.identity)
  }

  /** `list` holds, in order, the first `limit` records whose last attempt was not after `before`. */
  ghost predicate FirstDue(list: seq<Record>, rows: Rows, before: int, limit: nat) {
    && |list| <= limit
    && (forall k | 0 <= k < |list| :: list[k].identity in rows && rows[list[k].identity] == list[k])
    && (forall k | 0 <= k < |list| :: list[k].lastAttempt <= before)
    && (forall k, l | 0 <= k < l < |list| :: Earlier(list[k], list[l]))
    && (forall id | id in rows && rows[id].lastAttempt <= before && rows[id] !in list ::
          LeftForLater(list, rows[id], limit))
  }

  ghost predicate LeftForLater(list: seq<Record>, row: Record, limit: nat) {
    |list| == limit && forall k | 0 <= k < |list| :: Earlier(list[k], row)
  }

  datatype PutResult = Updated | Unchanged | Conflict

  function PutVerdict(rows: Rows, identity: nat, revision: nat, payload: Metadata, payloadHash: nat): PutResult {
    if identity !in rows || revision > rows[identity].revision then Updated
    else if revision < rows[identity].revision then Conflict
    else if payloadHash == rows[identity].payloadHash && payload == rows[identity].payload then Unchanged
    else Conflict
  }

  /** A new revision starts without an observation. */
  function PutRows(rows: Rows, identity: nat, revision: nat, payload: Metadata, payloadHash: nat): Rows {
    if PutVerdict(rows, identity, revision, payload, payloadHash) == Updated
    then rows[identity := Record(identity, revision, payload, payloadHash, None, 0)] else rows
  }

  predicate Guarded(rows: Rows, identity: nat, revision: nat, payloadHash: nat) {
    identity in rows && rows[identity].revision == revision && rows[identity].payloadHash == payloadHash
  }

  /** The rows after an observation of the given revision and payload was handed in. */
  function ObservedRows(rows: Rows, identity: nat, revision: nat, payloadHash: nat, o: Observation): Rows {
    if Guarded(rows, identity, revision, payloadHash) then rows[identity := rows[identity].(observation := Some(o))]
    else rows
  }

  class DiscoveryStore {
    var rows: Rows

    constructor ()
      ensures rows == map[]
    {
      rows := map[];
    }

    method Put(identity: nat, revision: nat, payload: Metadata, payloadHash: nat) returns (r: PutResult)
      modifies this
      ensures r == PutVerdict(old(rows), identity, revision, payload, payloadHash)
      ensures rows == PutRows(old(rows), identity, revision, payload, payloadHash)
    {
      if identity in rows {
        var previous := rows[identity];
        if revision < previous.revision { return Conflict; }
        if revision == previous.revision {
          return if payloadHash == previous.payloadHash && payload == previous.payload then Unchanged else Conflict;
        }
      }
      rows := rows[identity := Record(identity, revision, payload, payloadHash, None, 0)];
      r := Updated;
    }

    method Soonest(ids: set<nat>) returns (id: nat)
      requires ids != {} && ids <= rows.Keys && forall i | i in rows :: rows[i].identity == i
      ensures id in ids && forall o | o in ids && o != id :: Earlier(rows[id], rows[o])
    {
      id :| id in ids;
      var left := ids - {id};
      while left != {}
        invariant left <= ids && id in ids && id !in left
        invariant forall o | o in ids && o !in left && o != id :: Earlier(rows[id], rows[o])
        decreases left
      {
        var o :| o in left;
        if Sooner(rows[o], rows[id]) { id := o; }
        left := left - {o};
      }
    }

    method Due(before: int, limit: nat) returns (list: seq<Record>)
      requires forall i | i in rows :: rows[i].identity == i
      ensures FirstDue(list, rows, before, limit)
    {
      list := [];
      var ids := DueIds(rows, before);
      var left := ids;
      while left != {} && |list| < limit
        invariant left <= ids && |list| <= limit
        invariant forall k | 0 <= k < |list| ::
                    list[k].identity in ids && list[k].identity !in left && rows[list[k].identity] == list[k]
        invariant forall o | o in ids && o !in left :: rows[o] in list
        invariant forall k, l | 0 <= k < l < |list| :: Earlier(list[k], list[l])
        invariant forall k, o | 0 <= k < |list| && o in left :: Earlier(list[k], rows[o])
        decreases left
      {
        var id := Soonest(left);
        list := list + [rows[id]];
        left := left - {id};
      }
    }

    method MarkAttempt(identity: nat, revision: nat, time: nat)
      modifies this
      ensures rows == if identity in old(rows) && old(rows)[identity].revision == revision
                      then old(rows)[identity := old(rows)[identity].(lastAttempt := time)] else old(rows)
    {
      if identity in rows && rows[identity].revision == revision {
        rows := rows[identity := rows[identity].(lastAttempt := time)];
      }
    }

    /** Takes effect only if the record is still the revision and payload that were observed. */
    method SetObservation(identity: nat, revision: nat, payloadHash: nat, o: Observation) returns (changed: bool)
      modifies this
      ensures changed <==> Guarded(old(rows), identity, revision, payloadHash)
      ensures rows == ObservedRows(old(rows), identity, revision, payloadHash, o)
    {
      changed := Guarded(rows, identity, revision, payloadHash);
      if changed { rows := rows[identity := rows[identity].(observation := Some(o))]; }
    }
  }

  // ---------------------------------------------------------------- does an answer fit its record

  predicate OfferFits(offer: Offer, m: Metadata) {
    && offer.amount < TWO256 && offer.extraMethod == Some(offer.transferMethod)
    && offer.extraFlow == Some(offer.paymentFlow)
    && offer.target in m.targets
  }

  predicate Fits(r: Response, revision: nat, m: Metadata) {
    && (r.state == Compatible || (r.state == Incompatible && r.offers != []) ==>
          r.metadataRevision == Some(revision) && r.requestHash.Some? && r.blockHash.Some?)
    && (r.state == Compatible ==> r.offers != [])
    && (r.state != Compatible ==> r.offers == [])
    && (r.requestHash.Some? ==> r.requestHash.value == m.requestHash)
    && (forall i | 0 <= i < |r.offers| :: OfferFits(r.offers[i], m))
  }

  predicate MatchesRecord(r: Response, record: Record) {
    Fits(r, record.revision, record.payload)
  }

  /** What an answer has to be, state by state. Only a compatible one may carry offers, and every offer is one of the
      record's targets. */
  lemma FitsIff(r: Response, revision: nat, m: Metadata)
    ensures Fits(r, revision, m) <==>
              if r.state == Compatible
              then && r.offers != [] && r.metadataRevision == Some(revision) && r.requestHash == Some(m.requestHash)
                   && r.blockHash.Some? && forall offer | offer in r.offers :: Payable(offer, m)
              else r.offers == [] && (r.requestHash == None || r.requestHash == Some(m.requestHash))
  {
    if Fits(r, revision, m) {
      forall offer | offer in r.offers ensures Payable(offer, m) {
        var i :| 0 <= i < |r.offers| && r.offers[i] == offer;
        assert OfferFits(r.offers[i], m);
      }
    }
    if forall offer | offer in r.offers :: Payable(offer, m) {
      forall i | 0 <= i < |r.offers| ensures OfferFits(r.offers[i], m) {
        assert Payable(r.offers[i], m);
      }
    }
  }

  /** An offer of a sum that fits into 256 bits, to one of the targets, whose extra part repeats method and flow. */
  ghost predicate Payable(offer: Offer, m: Metadata) {
    && (exists t :: t in m.targets && t == offer.target) && 0 <= offer.amount <= TWO256 - 1
    && offer.extraMethod == Some(offer.transferMethod) && offer.extraFlow == Some(offer.paymentFlow)
  }

  // ---------------------------------------------------------------- the world

  datatype Entry = Entry(builder: nat, serviceUrl: nat, evidenceHash: nat, status: nat)

  const ACTIVE := 2

  /** The demand entry that a record with this payload describes while it is active. */
  function ActiveEntry(m: Metadata): Entry {
    Entry(m.builder, m.serviceUrl, m.evidenceHash, ACTIVE)
  }

  /** An observation that was stored: by which process run, for what, and how often its demand entry had been read
      when the observation began. */
  datatype Event = Event(run: nat, identity: nat, revision: nat, payload: Metadata, observedAt: nat, result: Response,
                         generation: nat, readings: nat)

  datatype World = World(rows: Rows, entries: map<nat, Entry>, versions: map<nat, nat>, counter: nat, now: nat,
                         startedAt: nat, run: nat, events: set<Event>, readings: map<nat, nat>)

  /** The generation of a record: the version at which its demand entry was last read in this run, 0 if it is not
      indexed. */
  function Generation(w: World, id: nat): nat {
    if id in w.versions then w.versions[id] else 0
  }

  function Reads(w: World, id: nat): nat {
    if id in w.readings then w.readings[id] else 0
  }

  function EntryOf(w: World, id: nat): Option<Entry> {
    if id in w.entries then Some(w.entries[id]) else None
  }

  predicate MadeFrom(e: Event, id: nat, row: Record, o: Observation) {
    && e.identity == id && e.revision == row.revision && e.payload == row.payload
    && Some(e.observedAt) == o.observedAt && Some(e.result) == o.result && e.generation == o.generation
  }

  predicate Backed(events: set<Event>, id: nat, row: Record, o: Observation) {
    exists e :: e in events && MadeFrom(e, id, row, o)
  }

  /** A dated observation comes from one stored event, for the record's own revision and payload; only those have a
      result. */
  predicate RowOk(w: World, id: nat)
    requires id in w.rows
  {
    var row := w.rows[id];
    && row.identity == id
    && (row.observation.Some? ==> (row.observation.value.result.Some? <==> row.observation.value.observedAt.Some?))
    && (row.observation.Some? && row.observation.value.observedAt.Some? ==>
        Backed(w.events, id, row, row.observation.value))
  }

  /** The entry still is the active one the event was made for, and has not been read again since. */
  predicate Unread(w: World, e: Event) {
    e.readings == Reads(w, e.identity) && EntryOf(w, e.identity) == Some(ActiveEntry(e.payload))
  }

  /** What was stored fits what it was stored for. If the entry still has the generation of the event, it is unread. */
  predicate EventOk(w: World, e: Event) {
    && e.observedAt <= w.now && e.run <= w.run && Fits(e.result, e.revision, e.payload)
    && (e.run == w.run ==> && w.startedAt <= e.observedAt && e.generation <= w.counter
                           && (0 < e.generation == Generation(w, e.identity) ==> Unread(w, e)))
    && (e.run < w.run ==> e.observedAt <= w.startedAt)
  }

  predicate VersionsOk(w: World) {
    && w.startedAt <= w.now && w.entries.Keys == w.versions.Keys
    && forall id | id in w.versions :: 1 <= w.versions[id] <= w.counter
  }

  predicate WorldOk(w: World) {
    VersionsOk(w) && (forall id | id in w.rows :: RowOk(w, id)) && (forall e | e in w.events :: EventOk(w, e))
  }

  // ---------------------------------------------------------------- what others may do during a run

  predicate RowKept(a: World, b: World, id: nat)
    requires id in a.rows
  {
    && id in b.rows && a.rows[id].revision <= b.rows[id].revision
    && (a.rows[id].revision == b.rows[id].revision ==>
          a.rows[id].payload == b.rows[id].payload && a.rows[id].payloadHash == b.rows[id].payloadHash)
  }

  /** A generation that is still the same means that the entry was not read again, and so is the same. */
  predicate VersionKept(a: World, b: World, id: nat) {
    || Generation(b, id) == 0 || Generation(b, id) > a.counter
    || (Generation(b, id) == Generation(a, id) && Reads(b, id) == Reads(a, id) && EntryOf(b, id) == EntryOf(a, id))
  }

  predicate Kept(a: World, b: World) {
    && a.run == b.run && a.startedAt == b.startedAt && a.now <= b.now && a.counter <= b.counter && a.events <= b.events
    && (forall e | e in b.events :: e in a.events || e.run == b.run)
    && (forall id | id in a.rows :: RowKept(a, b, id))
    && (forall id | id in b.versions :: VersionKept(a, b, id))
  }

  lemma KeptOn(a: World, b: World, c: World)
    requires Kept(a, b) && Kept(b, c)
    ensures Kept(a, c)
  {
    forall id | id in a.rows ensures RowKept(a, c, id) {
      assert RowKept(a, b, id) && RowKept(b, c, id);
    }
    forall id | id in c.versions ensures VersionKept(a, c, id) {
      assert VersionKept(b, c, id);
      if id in b.versions { assert VersionKept(a, b, id); }
    }
  }

  lemma KeptSelf(w: World)
    ensures Kept(w, w)
  {
    forall id | id in w.versions ensures VersionKept(w, w, id) {}
  }

  /** Rows and time may change together if events and index stay. */
  lemma RowsStep(w: World, w': World)
    requires WorldOk(w) && w' == w.(rows := w'.rows, now := w'.now) && w.now <= w'.now
    requires forall id | id in w'.rows :: RowOk(w', id)
    requires forall id | id in w.rows :: RowKept(w, w', id)
    ensures WorldOk(w') && Kept(w, w')
  {
    forall e | e in w'.events ensures EventOk(w', e) { assert EventOk(w, e); }
    forall id | id in w'.versions ensures VersionKept(w, w', id) {}
  }

  lemma PutStep(w: World, identity: nat, revision: nat, payload: Metadata, payloadHash: nat)
    requires WorldOk(w)
    ensures var w' := w.(rows := PutRows(w.rows, identity, revision, payload, payloadHash)); WorldOk(w') && Kept(w, w')
  {
    var w' := w.(rows := PutRows(w.rows, identity, revision, payload, payloadHash));
    forall id | id in w'.rows ensures RowOk(w', id) {
      if id in w.rows { assert RowOk(w, id); }
    }
    RowsStep(w, w');
  }

  /** Some entries are read again, each under a version of its own; some may be dropped by a rebuild. */
  predicate Reread(w: World, w': World) {
    && w' == w.(entries := w'.entries, versions := w'.versions, counter := w'.counter, readings := w'.readings)
    && w.counter <= w'.counter && w'.entries.Keys == w'.versions.Keys
    && forall id | id in w'.versions ::
         || w.counter < w'.versions[id] <= w'.counter
         || (id in w.versions && w'.versions[id] == w.versions[id] && Reads(w', id) == Reads(w, id) &&
             EntryOf(w', id) == EntryOf(w, id))
  }

  lemma RereadStep(w: World, w': World)
    requires WorldOk(w) && Reread(w, w')
    ensures WorldOk(w') && Kept(w, w')
  {
    forall id | id in w'.rows ensures RowOk(w', id) { assert RowOk(w, id); }
    forall e | e in w'.events ensures EventOk(w', e) { assert EventOk(w, e); }
    forall id | id in w'.versions ensures VersionKept(w, w', id) {}
  }

  /** An index refresh that reads one entry. */
  function ReadAgain(w: World, id: nat, entry: Entry): World {
    w.(entries := w.entries[id := entry], versions := w.versions[id := w.counter + 1], counter := w.counter + 1,
       readings := w.readings[id := Reads(w, id) + 1])
  }

  lemma ReadAgainStep(w: World, id: nat, entry: Entry)
    requires WorldOk(w)
    ensures WorldOk(ReadAgain(w, id, entry)) && Kept(w, ReadAgain(w, id, entry))
  {
    RereadStep(w, ReadAgain(w, id, entry));
  }

  /** A new process: nothing indexed, versions count from zero again. */
  function Restarted(w: World, now: nat): World {
    w.(entries := map[], versions := map[], counter := 0, now := now, startedAt := now, run := w.run + 1)
  }

  lemma RestartStep(w: World, now: nat)
    requires WorldOk(w) && w.now <= now
    ensures WorldOk(Restarted(w, now))
  {
    var w' := Restarted(w, now);
    forall id | id in w'.rows ensures RowOk(w', id) { assert RowOk(w, id); }
    forall e | e in w'.events ensures EventOk(w', e) { assert EventOk(w, e); }
  }

  // ---------------------------------------------------------------- storing an observation

  function Stored(w: World, id: nat, o: Observation): World
    requires id in w.rows
  {
    w.(rows := w.rows[id := w.rows[id].(observation := Some(o))])
  }

  lemma StoredStep(w: World, id: nat, o: Observation)
    requires WorldOk(w) && id in w.rows
    requires (o.result.Some? <==> o.observedAt.Some?) && (o.observedAt.Some? ==> Backed(w.events, id, w.rows[id], o))
    ensures WorldOk(Stored(w, id, o)) && Kept(w, Stored(w, id, o))
  {
    var w' := Stored(w, id, o);
    forall i | i in w'.rows ensures RowOk(w', i) {
      assert RowOk(w, i);
      if i == id && o.observedAt.Some? {
        var e :| e in w.events && MadeFrom(e, id, w.rows[id], o);
        assert MadeFrom(e, id, w'.rows[id], o);
      } else if w.rows[i].observation.Some? && w.rows[i].observation.value.observedAt.Some? {
        assert w'.rows[i] == w.rows[i] || i == id;
      }
    }
    RowsStep(w, w');
  }

  function Logged(w: World, e: Event): World {
    w.(events := w.events + {e})
  }

  /** The event of an observation that began when the world was `seen`, at the generation the entry still has. */
  lemma LoggedStep(seen: World, w: World, e: Event)
    requires WorldOk(w) && WorldOk(seen) && Kept(seen, w) && e.run == w.run && w.startedAt <= e.observedAt <= w.now
    requires e.generation == Generation(seen, e.identity) == Generation(w, e.identity) &&
               e.readings == Reads(seen, e.identity)
    requires Fits(e.result, e.revision, e.payload) && EntryOf(w, e.identity) == Some(ActiveEntry(e.payload))
    ensures WorldOk(Logged(w, e)) && Kept(w, Logged(w, e))
  {
    var w' := Logged(w, e);
    if e.identity in w.versions { assert VersionKept(seen, w, e.identity); }
    forall id | id in w'.rows ensures RowOk(w', id) {
      assert RowOk(w, id);
      if w.rows[id].observation.Some? && w.rows[id].observation.value.observedAt.Some? {
        var f :| f in w.events && MadeFrom(f, id, w.rows[id], w.rows[id].observation.value);
        assert f in w'.events;
      }
    }
    forall f | f in w'.events ensures EventOk(w', f) {
      if f in w.events { assert EventOk(w, f); }
    }
    forall id | id in w'.versions ensures VersionKept(w, w', id) {}
  }

  // ---------------------------------------------------------------- the view

  datatype View = Pending | Stale | Failing | Invalid | Shown(state: ServiceState)

  predicate Truthy(s: Option<string>) {
    s.Some? && s.value != ""
  }

  predicate IsStale(w: World, id: nat, o: Observation, staleMs: nat) {
    || o.observedAt.None? || o.generation != Generation(w, id) || o.observedAt.value < w.startedAt
    || w.now - o.observedAt.value >= staleMs
  }

  function ServiceView(w: World, id: nat, staleMs: nat): View
    requires id in w.entries
  {
    if id !in w.rows then Pending
    else
      var row, entry := w.rows[id], w.entries[id];
      if row.payload.builder != entry.builder || row.payload.serviceUrl != entry.serviceUrl ||
         row.payload.evidenceHash != entry.evidenceHash then Invalid
      else if row.observation.None? then Pending
      else
        var o := row.observation.value;
        if o.result.Some? && !MatchesRecord(o.result.value, row) then Invalid
        else if Truthy(o.failure) then Failing
        else if IsStale(w, id, o, staleMs) then Stale
        else if o.result.None? then Pending
        else if o.result.value.state == MetadataInvalid then Invalid
        else Shown(o.result.value.state)
  }

  /** The record describes this very entry. */
  ghost predicate Describes(row: Record, entry: Entry) {
    row.payload.builder == entry.builder && row.payload.serviceUrl == entry.serviceUrl &&
    row.payload.evidenceHash == entry.evidenceHash
  }

  /** Dated, not before the start of the process, younger than `staleMs`, and made at the version the entry has. */
  ghost predicate UpToDate(w: World, id: nat, o: Observation, staleMs: nat) {
    && o.observedAt.Some? && w.startedAt <= o.observedAt.value && w.now < o.observedAt.value + staleMs
    && o.generation == if id in w.versions then w.versions[id] else 0
  }

  ghost predicate NoFailure(o: Observation) {
    o.failure == None || o.failure == Some("")
  }

  /** What is shown, in every case: a state exactly if the record describes the entry and its last attempt succeeded,
      fits and is up to date. */
  lemma ViewIs(w: World, id: nat, staleMs: nat)
    requires id in w.entries
    ensures var view := ServiceView(w, id, staleMs);
            if id !in w.rows then view == Pending
            else if !Describes(w.rows[id], w.entries[id]) then view == Invalid
            else if w.rows[id].observation.None? then view == Pending
            else
              var o := w.rows[id].observation.value;
              if o.result.Some? && !MatchesRecord(o.result.value, w.rows[id]) then view == Invalid
              else
                && (view == Failing <==> !NoFailure(o))
                && (view == Stale <==> NoFailure(o) && !UpToDate(w, id, o, staleMs))
                && (view == Pending <==> NoFailure(o) && UpToDate(w, id, o, staleMs) && o.result.None?)
                && (view == Invalid <==> NoFailure(o) && UpToDate(w, id, o, staleMs) && o.result.Some? &&
                                         o.result.value.state == MetadataInvalid)
                && forall s :: view == Shown(s) <==>
                     NoFailure(o) && UpToDate(w, id, o, staleMs) && o.result.Some? && o.result.value.state == s &&
                     s != MetadataInvalid
  {
  }

  /** The shown state rests on an observation of this very run, for the current revision and payload, which found the
      demand active and during and after which its entry has not been read again. */
  ghost predicate RestsOnThisRun(w: World, id: nat, s: ServiceState, e: Event)
    requires id in w.rows
  {
    && e in w.events && e.run == w.run && e.identity == id
    && e.revision == w.rows[id].revision && e.payload == w.rows[id].payload
    && e.result.state == s && MatchesRecord(e.result, w.rows[id])
    && e.generation == Generation(w, id) && Unread(w, e)
  }

  /** The stored observation is of an earlier run and carries the very millisecond at which this run started. */
  ghost predicate SameMillisecond(w: World, id: nat, e: Event) {
    e in w.events && e.identity == id && e.run < w.run && e.observedAt == w.startedAt
  }

  lemma ShownRestsOn(w: World, id: nat, staleMs: nat) returns (e: Event)
    requires WorldOk(w) && id in w.entries && ServiceView(w, id, staleMs).Shown?
    ensures id in w.rows && e in w.events && w.now - e.observedAt < staleMs
    ensures RestsOnThisRun(w, id, ServiceView(w, id, staleMs).state, e) || SameMillisecond(w, id, e)
  {
    var row := w.rows[id];
    assert RowOk(w, id);
    e :| e in w.events && MadeFrom(e, id, row, row.observation.value);
    assert EventOk(w, e);
  }

  /** No stored observation is ever found not to fit its record: the view's own check of that cannot fail. */
  lemma StoredFits(w: World, id: nat)
    requires WorldOk(w) && id in w.rows && w.rows[id].observation.Some? && w.rows[id].observation.value.result.Some?
    ensures MatchesRecord(w.rows[id].observation.value.result.value, w.rows[id])
  {
    assert RowOk(w, id);
    var e :| e in w.events && MadeFrom(e, id, w.rows[id], w.rows[id].observation.value);
    assert EventOk(w, e);
  }

  /** Every restart so far came later than what was observed before it. */
  predicate Strict(w: World) {
    forall e | e in w.events && e.run < w.run :: e.observedAt < w.startedAt
  }

  /** If the clock moved on across the restart, nothing shown comes from an earlier run. */
  lemma CompatibleRestsOnThisRun(w: World, id: nat, staleMs: nat) returns (e: Event)
    requires WorldOk(w) && Strict(w) && id in w.entries && ServiceView(w, id, staleMs) == Shown(Compatible)
    ensures id in w.rows && RestsOnThisRun(w, id, Compatible, e) && w.now - e.observedAt < staleMs
  {
    e := ShownRestsOn(w, id, staleMs);
  }

  /** A stored observation that would be shown if its entry were indexed at its generation. */
  ghost predicate Showable(w: World, id: nat, entry: Entry) {
    && id in w.rows && w.rows[id].observation.Some?
    && var row, o := w.rows[id], w.rows[id].observation.value;
    && row.payload.builder == entry.builder && row.payload.serviceUrl == entry.serviceUrl
    && row.payload.evidenceHash == entry.evidenceHash
    && o.observedAt.Some? && o.result.Some? && MatchesRecord(o.result.value, row) && o.result.value.state == Compatible
    && !Truthy(o.failure) && o.generation > 0
  }

  /** The state of the index after this run has read the demand so often that its version is `version`. */
  function Indexed(w: World, id: nat, entry: Entry, version: nat): World {
    w.(entries := map[id := entry], versions := map[id := version], counter := version,
       readings := w.readings[id := Reads(w, id) + 1])
  }

  /** The start-time check is exact: an old observation is shown after a restart, once the reset version counter has
      come back to its generation, if and only if the restart fell into the millisecond of the observation. */
  lemma RestartShowsIff(w: World, now: nat, id: nat, entry: Entry, staleMs: nat)
    requires WorldOk(w) && w.now <= now && Showable(w, id, entry) && staleMs > 0
    ensures var o := w.rows[id].observation.value;
            var next := Indexed(Restarted(w, now), id, entry, o.generation);
            && WorldOk(next)
            && (ServiceView(next, id, staleMs) == Shown(Compatible) <==> o.observedAt == Some(now))
            && !exists e :: RestsOnThisRun(next, id, Compatible, e)
  {
    var o := w.rows[id].observation.value;
    var started := Restarted(w, now);
    RestartStep(w, now);
    var next := Indexed(started, id, entry, o.generation);
    RereadStep(started, next);
    assert RowOk(w, id);
    var e :| e in w.events && MadeFrom(e, id, w.rows[id], o);
    assert EventOk(w, e);
    forall f | f in next.events ensures f.run < next.run { assert EventOk(w, f); }
  }
}
