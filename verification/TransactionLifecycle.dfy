/** The life of one wallet transaction: what is reported while it is waited for, and the record that survives a
    reload. */
module TransactionLifecycle {
  import opened Wrappers
  import opened Texts
  import opened Decimals

  datatype Stage = Approval | DemandStage | Action

  datatype State = Broadcast | Confirmed | Reverted | Cancelled | Unknown

  datatype Intent = Intent(destination: string, data: string, value: nat)

  datatype Transaction = Transaction(hash: string, from: string, destination: Option<string>, data: string, value: nat)

  datatype Receipt = Receipt(hash: string, success: bool)

  datatype Reason = Repriced | CancelledBy | Replaced

  datatype Replacement = Replacement(reason: Reason, transaction: Transaction, receipt: Receipt)

  /** One report to the page; the stage, intent, wallet and chain of a wait never change. */
  datatype Update = Update(state: State, hash: string)

  /** What reading the transaction back gave: it was not asked for, it was not found or failed, or it was seen. */
  datatype Reading = NotAsked | NothingRead | Seen(transaction: Transaction)

  predicate SameText(a: string, b: string) {
    Lower(a) == Lower(b)
  }

  /** The transaction calls the same contract with the same data and value, from this wallet; letter case aside. */
  ghost predicate SameAction(intent: Intent, t: Transaction, wallet: string) {
    && (exists d :: t.destination == Some(d) && Lower(d) == Lower(intent.destination))
    && Lower(t.data) == Lower(intent.data) && t.value == intent.value && Lower(t.from) == Lower(wallet)
  }

  lemma MatchesIff(intent: Intent, t: Transaction, wallet: string)
    ensures IntentMatches(intent, t, wallet) <==> SameAction(intent, t, wallet)
  {
  }

  predicate IntentMatches(intent: Intent, t: Transaction, wallet: string) {
    && t.destination.Some? && SameText(t.destination.value, intent.destination)
    && SameText(t.data, intent.data) && t.value == intent.value && SameText(t.from, wallet)
  }

  function LastReplacement(replacements: seq<Replacement>): Option<Replacement> {
    if replacements == [] then None else Some(replacements[|replacements| - 1])
  }

  /** A cancellation by the same wallet whose receipt is its own. */
  predicate OwnCancellation(r: Replacement, receiptHash: string, wallet: string) {
    r.reason == CancelledBy && SameText(r.transaction.hash, receiptHash) && SameText(r.transaction.from, wallet)
  }

  predicate Contradicted(hash: string, intent: Intent, wallet: string, reading: Reading) {
    reading.Seen? && (!SameText(reading.transaction.hash, hash) || !IntentMatches(intent, reading.transaction, wallet))
  }

  /** What was read back is another transaction, or another action. */
  ghost predicate Disproves(hash: string, intent: Intent, wallet: string, reading: Reading) {
    && reading.Seen?
    && (Lower(reading.transaction.hash) != Lower(hash) || !SameAction(intent, reading.transaction, wallet))
  }

  /** A receipt that proves this very action: the original hash, or a replacement that does the same. */
  ghost predicate Proves(hash: string, intent: Intent, wallet: string, reading: Reading, last: Option<Replacement>,
                   receipt: Receipt) {
    match last
    case None => SameText(receipt.hash, hash) && reading != NothingRead
    case Some(r) =>
      && r.reason != CancelledBy && SameText(r.transaction.hash, receipt.hash)
      && SameAction(intent, r.transaction, wallet)
  }

  /** The end of a wait, told from what was read, which replacements were reported, and the receipt (None: the wait
      failed). */
  function Outcome(hash: string, intent: Intent, wallet: string, reading: Reading, replacements: seq<Replacement>,
                   receipt: Option<Receipt>): Update {
    var last := LastReplacement(replacements);
    if Contradicted(hash, intent, wallet, reading) then Update(Unknown, hash)
    else if receipt.None? then
      Update(if last.Some? && OwnCancellation(last.value, last.value.receipt.hash, wallet) then Cancelled else Unknown,
             if last.Some? then last.value.receipt.hash else hash)
    else if last.Some? && last.value.reason == CancelledBy then
      Update(if OwnCancellation(last.value, receipt.value.hash, wallet) then Cancelled else Unknown, receipt.value.hash)
    else if last.Some? && !SameText(last.value.transaction.hash, receipt.value.hash) then
      Update(Unknown, receipt.value.hash)
    else if last.Some? && !IntentMatches(intent, last.value.transaction, wallet) then
      Update(Unknown, receipt.value.hash)
    else if last.None? && !SameText(receipt.value.hash, hash) then Update(Unknown, receipt.value.hash)
    else if reading == NothingRead && last.None? then Update(Unknown, receipt.value.hash)
    else Update(if receipt.value.success then Confirmed else Reverted, receipt.value.hash)
  }

  /** Reports are: broadcast first, broadcast again for every replacement, and one final state at the very end. */
  predicate WellReported(updates: seq<Update>, hash: string) {
    && |updates| >= 2 && updates[0] == Update(Broadcast, hash)
    && updates[|updates| - 1].state != Broadcast
    && forall i | 0 <= i < |updates| - 1 :: updates[i].state == Broadcast
  }

  method WaitForTransaction(hash: string, intent: Intent, wallet: string, reading: Reading,
                            replacements: seq<Replacement>,
                            receipt: Option<Receipt>)
    returns (r: Result<string, State>, updates: seq<Update>)
    ensures WellReported(updates, hash)
    ensures updates[|updates| - 1] == Outcome(hash, intent, wallet, reading, replacements, receipt)
    ensures !Contradicted(hash, intent, wallet, reading) ==>
              |updates| == |replacements| + 2 &&
              forall i | 0 <= i < |replacements| :: updates[i + 1].hash == replacements[i].transaction.hash
    ensures var final := updates[|updates| - 1];
            r == if final.state == Confirmed then Ok(final.hash) else Err(final.state)
  {
    updates := [Update(Broadcast, hash)];
    if reading.Seen? {
      if !SameText(reading.transaction.hash, hash) || !IntentMatches(intent, reading.transaction, wallet) {
        return Err(Unknown), updates + [Update(Unknown, hash)];
      }
    }
    for i := 0 to |replacements|
      invariant |updates| == i + 1 && updates[0] == Update(Broadcast, hash)
      invariant forall j | 0 <= j < |updates| :: updates[j].state == Broadcast
      invariant forall j | 0 <= j < i :: updates[j + 1].hash == replacements[j].transaction.hash
    {
      updates := updates + [Update(Broadcast, replacements[i].transaction.hash)];
    }
    var last := LastReplacement(replacements);
    if receipt.None? {
      var cancelled := last.Some? && OwnCancellation(last.value, last.value.receipt.hash, wallet);
      var failed := if last.Some? then last.value.receipt.hash else hash;
      var state := if cancelled then Cancelled else Unknown;
      return Err(state), updates + [Update(state, failed)];
    }
    var h := receipt.value.hash;
    if last.Some? && last.value.reason == CancelledBy {
      var state := if OwnCancellation(last.value, h, wallet) then Cancelled else Unknown;
      return Err(state), updates + [Update(state, h)];
    }
    if (last.Some? && !SameText(last.value.transaction.hash, h)) ||
      (last.Some? && !IntentMatches(intent, last.value.transaction, wallet))
       || (last.None? && !SameText(h, hash)) || (reading == NothingRead && last.None?) {
      return Err(Unknown), updates + [Update(Unknown, h)];
    }
    if !receipt.value.success { return Err(Reverted), updates + [Update(Reverted, h)]; }
    return Ok(h), updates + [Update(Confirmed, h)];
  }

  /** Confirmed exactly on a successful receipt that proves this action and nothing read that contradicts it. */
  lemma ConfirmedIff(hash: string, intent: Intent, wallet: string, reading: Reading, replacements: seq<Replacement>,
                     receipt: Option<Receipt>)
    ensures Outcome(hash, intent, wallet, reading, replacements, receipt).state == Confirmed <==>
              && !Disproves(hash, intent, wallet, reading) && receipt.Some? && receipt.value.success
              && Proves(hash, intent, wallet, reading, LastReplacement(replacements), receipt.value)
    ensures Outcome(hash, intent, wallet, reading, replacements, receipt).state == Reverted <==>
              && !Disproves(hash, intent, wallet, reading) && receipt.Some? && !receipt.value.success
              && Proves(hash, intent, wallet, reading, LastReplacement(replacements), receipt.value)
    ensures Outcome(hash, intent, wallet, reading, replacements, receipt).state == Cancelled <==>
              && !Disproves(hash, intent, wallet, reading) && LastReplacement(replacements).Some?
              && var r := LastReplacement(replacements).value;
              && r.reason == CancelledBy && Lower(r.transaction.from) == Lower(wallet)
              && Lower(r.transaction.hash) == Lower(if receipt.Some? then receipt.value.hash else r.receipt.hash)
  {
  }

  // ---------------------------------------------------------------- the saved record

  datatype Verification = Verification(before: seq<nat>, creator: string, capability: string, specification: string,
                                       maxPrice: nat, expectedCalls: nat, initialCommitment: nat)

  datatype Pending = Pending(wallet: string, chainId: nat, contract: string, actionId: string, title: string,
                             stage: Stage,
                             state: State, hash: string, intent: Intent, verification: Option<Verification>)

  datatype Field = Version | Wallet | ChainId | Contract | ActionId | ActionLabel | StageField | StateField | HashField
                 | IntentField | To | Data | ValueField | VerificationField | BeforeField | Expected | DemandId
                 | Creator | Capability | Specification | MaxPrice | ExpectedCalls | InitialCommitment

  /** A parsed JSON value; text and value of JSON are taken to correspond. */
  datatype Json = JNull | JNumber(n: int) | JText(s: string) | JStage(stage: Stage) | JState(state: State)
                | JList(items: seq<Json>) | JObject(fields: map<Field, Json>)

  function Get(v: Json, f: Field): Json {
    if v.JObject? && f in v.fields then v.fields[f] else JNull
  }

  const MAX_SAFE := 0x1F_FFFF_FFFF_FFFF

  // The checksummed spelling of an address is computed by a hash function; any function that depends on the letters
  // alone, and not on their case, will do.

  predicate LikeChecksum(checksum: string -> string, a: string, b: string) {
    && Lower(checksum(a)) == Lower(a) && (Lower(a) == Lower(b) ==> checksum(a) == checksum(b))
  }

  ghost predicate Checksums(checksum: string -> string) {
    forall a, b :: LikeChecksum(checksum, a, b)
  }

  predicate IsAddress(s: string, checksum: string -> string) {
    |s| == 42 && HexFrom(s, 2) && (s == Lower(s) || s == checksum(s))
  }

  function ParseAddress(v: Json, checksum: string -> string): Option<string> {
    if v.JText? && IsAddress(v.s, checksum) then Some(checksum(v.s)) else None
  }

  predicate IsData(s: string) {
    |s| % 2 == 0 && HexFrom(s, 2)
  }

  function ParseNumber(v: Json): Option<nat> {
    if v.JText? && |v.s| > 0 && AllDigits(v.s) then Some(Value(v.s)) else None
  }

  function ParseIntent(v: Json, checksum: string -> string): Option<Intent> {
    var destination := ParseAddress(Get(v, To), checksum);
    var data := Get(v, Data);
    var value := ParseNumber(Get(v, ValueField));
    if destination.Some? && data.JText? && IsData(data.s) && value.Some? then
      Some(Intent(destination.value, data.s, value.value))
    else None
  }

  function ParseBefore(items: seq<Json>): Option<seq<nat>> {
    if items == [] then Some([])
    else
      var init := ParseBefore(items[..|items| - 1]);
      var last := ParseNumber(Get(items[|items| - 1], DemandId));
      if init.Some? && last.Some? then Some(init.value + [last.value]) else None
  }

  function ParseVerification(v: Json, checksum: string -> string): Option<Verification> {
    var list, e := Get(v, BeforeField), Get(v, Expected);
    if !list.JList? then None
    else
      var before := ParseBefore(list.items);
      var creator := ParseAddress(Get(e, Creator), checksum);
      var price, calls, commitment := ParseNumber(Get(e, MaxPrice)), ParseNumber(Get(e, ExpectedCalls)),
          ParseNumber(Get(e, InitialCommitment));
      if before.Some? && creator.Some? && Get(e, Capability).JText? && Get(e, Specification).JText? &&
         price.Some? && calls.Some? && commitment.Some?
      then Some(Verification(before.value, creator.value, Get(e, Capability).s, Get(e, Specification).s, price.value,
                             calls.value,
                             commitment.value))
      else None
  }

  predicate ZeroAddress(s: string) {
    forall i | 2 <= i < |s| :: s[i] == '0'
  }

  predicate Labelled(v: Json, longest: nat) {
    v.JText? && 0 < |v.s| <= longest
  }

  predicate Savable(s: State) {
    s == Broadcast || s == Unknown
  }

  function ParsePending(v: Json, checksum: string -> string): Option<Pending> {
    var wallet, contract := ParseAddress(Get(v, Wallet), checksum), ParseAddress(Get(v, Contract), checksum);
    var hash, intent := Get(v, HashField), ParseIntent(Get(v, IntentField), checksum);
    var chain, stage, state := Get(v, ChainId), Get(v, StageField), Get(v, StateField);
    if Get(v, Version) != JNumber(2) || wallet.None? || contract.None? || ZeroAddress(contract.value) then None
    else if !hash.JText? || !IsHash(hash.s) || intent.None? then None
    else if !chain.JNumber? || chain.n <= 0 || chain.n > MAX_SAFE then None
    else if !Labelled(Get(v, ActionId), 160) || !Labelled(Get(v, ActionLabel), 80) then None
    else if !stage.JStage? || !state.JState? || !Savable(state.state) then None
    else Some(Pending(wallet.value, chain.n, contract.value, Get(v, ActionId).s, Get(v, ActionLabel).s, stage.stage,
                      state.state,
                      hash.s, intent.value, ParseVerification(Get(v, VerificationField), checksum)))
  }

  function Numeral(n: nat): Json {
    JText(Print(n))
  }

  function SerializeBefore(before: seq<nat>): seq<Json> {
    seq(|before|, i requires 0 <= i < |before| => JObject(map[DemandId := Numeral(before[i])]))
  }

  function SerializeVerification(v: Verification): Json {
    JObject(map[BeforeField := JList(SerializeBefore(v.before)),
                Expected := JObject(map[Creator := JText(v.creator), Capability := JText(v.capability),
                                        Specification := JText(v.specification), MaxPrice := Numeral(v.maxPrice),
                                        ExpectedCalls := Numeral(v.expectedCalls),
                                        InitialCommitment := Numeral(v.initialCommitment)])])
  }

  function SerializeIntent(i: Intent): Json {
    JObject(map[To := JText(i.destination), Data := JText(i.data), ValueField := Numeral(i.value)])
  }

  function SerializePending(r: Pending): Json {
    var fields := map[Version := JNumber(2), Wallet := JText(r.wallet), ChainId := JNumber(r.chainId),
                      Contract := JText(r.contract), ActionId := JText(r.actionId), ActionLabel := JText(r.title),
                      StageField := JStage(r.stage), StateField := JState(r.state), HashField := JText(r.hash),
                      IntentField := SerializeIntent(r.intent)];
    JObject(if r.verification.Some? then fields[VerificationField := SerializeVerification(r.verification.value)]
            else fields)
  }

  // ---------------------------------------------------------------- round trip

  predicate ProperVerification(v: Verification, checksum: string -> string) {
    IsAddress(v.creator, checksum)
  }

  predicate ProperIntent(i: Intent, checksum: string -> string) {
    IsAddress(i.destination, checksum) && IsData(i.data)
  }

  /** What every record that is read is like. */
  ghost predicate ReadInOrder(r: Pending) {
    && 1 <= r.chainId <= MAX_SAFE && 1 <= |r.actionId| <= 160 && 1 <= |r.title| <= 80 && IsHash(r.hash)
    && (r.state == Broadcast || r.state == Unknown) && (exists i :: 2 <= i < |r.contract| && r.contract[i] != '0')
  }

  /** A value is read as a record only if it has version 2 and all the fields, within their limits. */
  lemma ReadIsInOrder(v: Json, checksum: string -> string)
    requires ParsePending(v, checksum).Some?
    ensures ReadInOrder(ParsePending(v, checksum).value) && Get(v, Version) == JNumber(2)
  {
  }

  /** A record as the application makes them. */
  predicate Proper(r: Pending, checksum: string -> string) {
    && IsAddress(r.wallet, checksum) && IsAddress(r.contract, checksum) && !ZeroAddress(checksum(r.contract))
    && IsHash(r.hash) && ProperIntent(r.intent, checksum) && 0 < r.chainId <= MAX_SAFE
    && 0 < |r.actionId| <= 160 && 0 < |r.title| <= 80 && Savable(r.state)
    && (r.verification.Some? ==> ProperVerification(r.verification.value, checksum))
  }

  function Checksummed(r: Pending, checksum: string -> string): Pending {
    r.(wallet := checksum(r.wallet), contract := checksum(r.contract),
       intent := r.intent.(destination := checksum(r.intent.destination)),
       verification := if r.verification.Some? then
         Some(r.verification.value.(creator := checksum(r.verification.value.creator))) else None)
  }

  lemma NumeralBack(n: nat)
    ensures ParseNumber(Numeral(n)) == Some(n)
  {
    ValuePrint(n);
  }

  lemma {:induction false} BeforeBack(before: seq<nat>)
    ensures ParseBefore(SerializeBefore(before)) == Some(before)
  {
    if before != [] {
      var init, items := before[..|before| - 1], SerializeBefore(before);
      assert items[..|items| - 1] == SerializeBefore(init);
      BeforeBack(init);
      NumeralBack(before[|before| - 1]);
      assert init + [before[|before| - 1]] == before;
    }
  }

  lemma VerificationBack(v: Verification, checksum: string -> string)
    requires ProperVerification(v, checksum)
    ensures ParseVerification(SerializeVerification(v), checksum) == Some(v.(creator := checksum(v.creator)))
  {
    BeforeBack(v.before);
    NumeralBack(v.maxPrice);
    NumeralBack(v.expectedCalls);
    NumeralBack(v.initialCommitment);
  }

  lemma IntentBack(i: Intent, checksum: string -> string)
    requires ProperIntent(i, checksum)
    ensures ParseIntent(SerializeIntent(i), checksum) == Some(i.(destination := checksum(i.destination)))
  {
    NumeralBack(i.value);
  }

  /** The plain fields of a saved record. */
  predicate HasFields(v: Json, r: Pending) {
    && Get(v, Version) == JNumber(2) && Get(v, Wallet) == JText(r.wallet) && Get(v, ChainId) == JNumber(r.chainId)
    && Get(v, Contract) == JText(r.contract) && Get(v, ActionId) == JText(r.actionId)
    && Get(v, ActionLabel) == JText(r.title)
    && Get(v, StageField) == JStage(r.stage) && Get(v, StateField) == JState(r.state)
    && Get(v, HashField) == JText(r.hash)
  }

  lemma FieldsBack(r: Pending)
    ensures HasFields(SerializePending(r), r)
  {
  }

  lemma PartsBack(r: Pending, checksum: string -> string)
    requires Proper(r, checksum)
    ensures var v := SerializePending(r);
            && ParseIntent(Get(v, IntentField), checksum) == Some(Checksummed(r, checksum).intent)
            && ParseVerification(Get(v, VerificationField), checksum) == Checksummed(r, checksum).verification
  {
    var v := SerializePending(r);
    IntentBack(r.intent, checksum);
    assert Get(v, IntentField) == SerializeIntent(r.intent);
    if r.verification.Some? {
      VerificationBack(r.verification.value, checksum);
      assert Get(v, VerificationField) == SerializeVerification(r.verification.value);
    } else {
      assert Get(v, VerificationField) == JNull;
    }
  }

  lemma Assembled(v: Json, r: Pending, checksum: string -> string)
    requires Proper(r, checksum) && HasFields(v, r)
    requires ParseIntent(Get(v, IntentField), checksum) == Some(Checksummed(r, checksum).intent)
    requires ParseVerification(Get(v, VerificationField), checksum) == Checksummed(r, checksum).verification
    ensures ParsePending(v, checksum) == Some(Checksummed(r, checksum))
  {
  }

  /** A saved record is read back as it was, addresses in checksum case. */
  lemma SavedReadsBack(r: Pending, checksum: string -> string)
    requires Proper(r, checksum)
    ensures ParsePending(SerializePending(r), checksum) == Some(Checksummed(r, checksum))
  {
    FieldsBack(r);
    PartsBack(r, checksum);
    Assembled(SerializePending(r), r, checksum);
  }

  // ---------------------------------------------------------------- the storage

  /** The part of the key after the prefix; `encode` escapes the action id. */
  function KeyOf(wallet: string, chainId: nat, contract: string, actionId: string, encode: string -> string): string {
    Joined(Print(chainId), Joined(Lower(contract), Joined(Lower(wallet), encode(actionId))))
  }

  function KeyFor(r: Pending, encode: string -> string): string {
    KeyOf(r.wallet, r.chainId, r.contract, r.actionId, encode)
  }

  lemma AddressNoColon(s: string, checksum: string -> string)
    requires IsAddress(s, checksum)
    ensures NoColon(Lower(s))
  {
    forall i | 0 <= i < |s| ensures s[i] != ':' {
      assert i < 2 || IsHex(s[i]);
    }
    LowerNoColon(s);
  }

  lemma PrintNoColon(n: nat)
    ensures NoColon(Print(n))
  {
    forall i | 0 <= i < |Print(n)| ensures Print(n)[i] != ':' { assert IsDigit(Print(n)[i]); }
  }

  /** Records share a key only if they are for the same chain, contract, wallet and action. */
  lemma KeysApart(a: Pending, b: Pending, checksum: string -> string, encode: string -> string)
    requires IsAddress(a.wallet, checksum) && IsAddress(a.contract, checksum) && IsAddress(b.wallet, checksum) &&
               IsAddress(b.contract, checksum)
    requires KeyFor(a, encode) == KeyFor(b, encode)
    ensures a.chainId == b.chainId && SameText(a.contract, b.contract) && SameText(a.wallet, b.wallet)
    ensures encode(a.actionId) == encode(b.actionId)
  {
    AddressNoColon(a.wallet, checksum);
    AddressNoColon(a.contract, checksum);
    AddressNoColon(b.wallet, checksum);
    AddressNoColon(b.contract, checksum);
    PrintNoColon(a.chainId);
    PrintNoColon(b.chainId);
    var wa, wb := Joined(Lower(a.wallet), encode(a.actionId)), Joined(Lower(b.wallet), encode(b.actionId));
    JoinedApart(Print(a.chainId), Joined(Lower(a.contract), wa), Print(b.chainId), Joined(Lower(b.contract), wb));
    JoinedApart(Lower(a.contract), wa, Lower(b.contract), wb);
    JoinedApart(Lower(a.wallet), encode(a.actionId), Lower(b.wallet), encode(b.actionId));
    ValuePrint(a.chainId);
    ValuePrint(b.chainId);
  }

  type Items = map<string, Json>

  function Restored(r: Pending): Pending {
    r.(state := Unknown)
  }

  /** The item under this key is a record that belongs there. */
  predicate Reads(items: Items, key: string, r: Pending, checksum: string -> string, encode: string -> string) {
    key in items && var parsed := ParsePending(items[key], checksum);
    parsed.Some? && key == KeyFor(parsed.value, encode) && r == Restored(parsed.value)
  }

  class Storage {
    var items: Items
    const checksum: string -> string
    const encode: string -> string

    constructor (checksum: string -> string, encode: string -> string)
      ensures items == map[] && this.checksum == checksum && this.encode == encode
    {
      items, this.checksum, this.encode := map[], checksum, encode;
    }

    method StorePending(r: Pending)
      modifies this
      ensures items == old(items)[KeyFor(r, encode) := SerializePending(r)]
    {
      items := items[KeyFor(r, encode) := SerializePending(r)];
    }

    method RemovePending(r: Pending)
      modifies this
      ensures items == old(items) - {KeyFor(r, encode)}
    {
      items := items - {KeyFor(r, encode)};
    }

    /** Every readable record, each with its outcome unknown again; the rest is only counted. */
    method ReadPending() returns (records: seq<Pending>, invalid: nat)
      ensures forall r :: r in records <==> exists key :: Reads(items, key, r, checksum, encode)
      ensures |records| + invalid == |items|
    {
      records, invalid := [], 0;
      var left := items.Keys;
      while left != {}
        invariant left <= items.Keys && |records| + invalid + |left| == |items|
        invariant forall r :: r in records <==> exists key :: key !in left && Reads(items, key, r, checksum, encode)
        decreases left
      {
        var key :| key in left;
        left := left - {key};
        var parsed := ParsePending(items[key], checksum);
        if parsed.Some? && key == KeyFor(parsed.value, encode) {
          assert Reads(items, key, Restored(parsed.value), checksum, encode);
          records := records + [Restored(parsed.value)];
        } else {
          invalid := invalid + 1;
        }
      }
    }
  }

  lemma ChecksumKeepsKey(r: Pending, checksum: string -> string, encode: string -> string)
    requires Checksums(checksum)
    ensures KeyFor(Checksummed(r, checksum), encode) == KeyFor(r, encode)
  {
    assert LikeChecksum(checksum, r.wallet, r.wallet) && LikeChecksum(checksum, r.contract, r.contract);
  }

  predicate Blocks(s: State) {
    s == Broadcast || s == Unknown
  }

  /** A record that was stored is read back and still blocks a second submission. */
  lemma StoredIsRead(items: Items, r: Pending, checksum: string -> string, encode: string -> string)
    requires Checksums(checksum) && Proper(r, checksum)
    ensures var after := items[KeyFor(r, encode) := SerializePending(r)];
            && Reads(after, KeyFor(r, encode), Restored(Checksummed(r, checksum)), checksum, encode)
            && Blocks(Restored(Checksummed(r, checksum)).state)
  {
    SavedReadsBack(r, checksum);
    ChecksumKeepsKey(r, checksum, encode);
  }

  /** Storing or removing one record leaves every other one as it was. */
  lemma OthersUntouched(items: Items, r: Pending, key: string, other: Pending, checksum: string -> string,
                        encode: string -> string)
    requires key != KeyFor(r, encode)
    ensures Reads(items[KeyFor(r, encode) := SerializePending(r)], key, other, checksum, encode) <==>
              Reads(items, key, other, checksum, encode)
    ensures Reads(items - {KeyFor(r, encode)}, key, other, checksum, encode) <==>
              Reads(items, key, other, checksum, encode)
  {
  }

  /** After a removal nothing is read for that chain, contract, wallet and action. */
  lemma RemovedIsGone(items: Items, r: Pending, key: string, other: Pending, checksum: string -> string,
                      encode: string -> string)
    requires Reads(items - {KeyFor(r, encode)}, key, other, checksum, encode)
    ensures !(other.chainId == r.chainId && SameText(other.contract, r.contract) && SameText(other.wallet, r.wallet) &&
              other.actionId == r.actionId)
  {
    var parsed := ParsePending(items[key], checksum).value;
    assert key == KeyFor(parsed, encode) && key != KeyFor(r, encode);
  }
}
