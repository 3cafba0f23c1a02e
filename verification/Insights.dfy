/** The history figures: one pass over the events in chain order, against what each figure means as a set or a sum. */
module Insights {
  import opened Wrappers
  import opened Sets
  import opened Decimals
  import opened Texts
  import Chain
  import S = ActivityStore
  import C = ActivityCoverage

  datatype Name = Created | Supported | Submitted | Rejected | Fulfilled | Other

  /** The text arguments of a payload, each possibly missing. */
  datatype Args = Args(demandKey: Option<string>, supporter: Option<string>, amount: Option<string>,
                       nonce: Option<string>)

  /** An event row; a payload that is not a JSON object has no arguments at all. */
  datatype Fact = Fact(name: Name, demandId: Option<string>, time: nat, args: Option<Args>)

  predicate Given(s: Option<string>) {
    s.Some? && s.value != ""
  }

  predicate GivenNumber(s: Option<string>) {
    Given(s) && Canonical(s.value)
  }

  // ---------------------------------------------------------------- the fold

  datatype Acc = Acc(created: map<string, nat>, keys: set<string>, submissions: set<string>, reopens: set<string>,
                     fulfilled: set<string>, pairs: set<string>, repeats: nat, gross: nat, windowGross: nat,
                     newPairs: nat, duration: nat)

  const START := Acc(map[], {}, {}, {}, {}, {}, 0, 0, 0, 0, 0)

  function StepCreated(acc: Acc, e: Fact): Option<Acc>
    requires e.args.Some?
  {
    var key := e.args.value.demandKey;
    if !Given(e.demandId) || !Given(key) || e.demandId.value in acc.created then None
    else Some(acc.(created := acc.created[e.demandId.value := e.time],
                   repeats := if key.value in acc.keys then acc.repeats + 1 else acc.repeats,
                   keys := acc.keys + {key.value}))
  }

  function StepSupported(acc: Acc, e: Fact, from: int): Option<Acc>
    requires e.args.Some?
  {
    var supporter, amount := e.args.value.supporter, e.args.value.amount;
    if !Given(e.demandId) || !Given(supporter) || !GivenNumber(amount) then None
    else
      var pair := Joined(e.demandId.value, supporter.value);
      Some(acc.(gross := acc.gross + Value(amount.value),
                windowGross := if e.time > from then acc.windowGross + Value(amount.value) else acc.windowGross,
                newPairs := if pair !in acc.pairs && e.time > from then acc.newPairs + 1 else acc.newPairs,
                pairs := acc.pairs + {pair}))
  }

  function StepSubmission(acc: Acc, e: Fact): Option<Acc>
    requires e.args.Some?
  {
    if !Given(e.demandId) || !GivenNumber(e.args.value.nonce) then None
    else
      var key := Joined(e.demandId.value, e.args.value.nonce.value);
      if e.name == Submitted then
        if key in acc.submissions then None else Some(acc.(submissions := acc.submissions + {key}))
      else if key in acc.reopens then None else Some(acc.(reopens := acc.reopens + {key}))
  }

  function StepFulfilled(acc: Acc, e: Fact): Option<Acc> {
    if !Given(e.demandId) || e.demandId.value !in acc.created || e.demandId.value in acc.fulfilled ||
       e.time < acc.created[e.demandId.value] then None
    else Some(acc.(fulfilled := acc.fulfilled + {e.demandId.value},
                   duration := acc.duration + (e.time - acc.created[e.demandId.value])))
  }

  /** One event; None marks the whole history as invalid. */
  function Step(acc: Acc, e: Fact, until: int, from: int): Option<Acc> {
    if e.args.None? || e.time > until then None
    else match e.name
         case Created => StepCreated(acc, e)
         case Supported => StepSupported(acc, e, from)
         case Submitted => StepSubmission(acc, e)
         case Rejected => StepSubmission(acc, e)
         case Fulfilled => StepFulfilled(acc, e)
         case Other => Some(acc)
  }

  function Fold(events: seq<Fact>, until: int, from: int): Option<Acc> {
    if events == [] then Some(START)
    else
      var acc := Fold(events[..|events| - 1], until, from);
      if acc.None? then None else Step(acc.value, events[|events| - 1], until, from)
  }

  lemma {:induction false} FoldStops(events: seq<Fact>, i: nat, until: int, from: int)
    requires i <= |events| && Fold(events[..i], until, from).None?
    ensures Fold(events, until, from).None?
    decreases |events|
  {
    if i < |events| {
      assert events[..|events| - 1][..i] == events[..i];
      FoldStops(events[..|events| - 1], i, until, from);
    } else {
      assert events[..i] == events;
    }
  }

  /** The loop of the source; it stops at the first invalid event. */
  method FoldEvents(events: seq<Fact>, until: int, from: int) returns (acc: Option<Acc>)
    ensures acc == Fold(events, until, from)
  {
    acc := Some(START);
    for i := 0 to |events|
      invariant acc == Fold(events[..i], until, from) && acc.Some?
    {
      assert events[..i + 1][..i] == events[..i];
      acc := Step(acc.value, events[i], until, from);
      if acc.None? {
        FoldStops(events, i + 1, until, from);
        return;
      }
    }
    assert events[..|events|] == events;
  }

  // ---------------------------------------------------------------- what makes a history valid

  predicate EarlierId(events: seq<Fact>, i: nat, name: Name, id: Option<string>) {
    exists j :: 0 <= j < i && j < |events| && events[j].name == name && events[j].demandId == id
  }

  predicate EarlierNonce(events: seq<Fact>, i: nat) {
    i < |events| && exists j :: 0 <= j < i && SameNonce(events[j], events[i])
  }

  predicate SameNonce(a: Fact, b: Fact) {
    a.name == b.name && a.demandId == b.demandId && a.args.Some? && b.args.Some? &&
      a.args.value.nonce == b.args.value.nonce
  }

  /** The creation that event i, a fulfilment, answers. */
  predicate CreatedBefore(events: seq<Fact>, i: nat) {
    i < |events| && exists j :: 0 <= j < i && events[j].name == Created && events[j].demandId == events[i].demandId &&
                                events[j].time <= events[i].time
  }

  /** Event i is in order, given the events before it. */
  predicate Fits(events: seq<Fact>, i: nat, until: int)
    requires i < |events|
  {
    var e := events[i];
    && e.args.Some? && e.time <= until
    && match e.name
       case Created => Given(e.demandId) && Given(e.args.value.demandKey) && !EarlierId(events, i, Created, e.demandId)
       case Supported => Given(e.demandId) && Given(e.args.value.supporter) && GivenNumber(e.args.value.amount)
       case Submitted => Given(e.demandId) && GivenNumber(e.args.value.nonce) && !EarlierNonce(events, i)
       case Rejected => Given(e.demandId) && GivenNumber(e.args.value.nonce) && !EarlierNonce(events, i)
       case Fulfilled => Given(e.demandId) && CreatedBefore(events, i) && !EarlierId(events, i, Fulfilled, e.demandId)
       case Other => true
  }

  predicate ValidHistory(events: seq<Fact>, until: int) {
    forall i | 0 <= i < |events| :: Fits(events, i, until)
  }

  /** Stored demand ids are canonical decimals, so a joined pair of texts can be taken apart again. */
  predicate DecimalIds(events: seq<Fact>) {
    forall i | 0 <= i < |events| && Given(events[i].demandId) :: Canonical(events[i].demandId.value)
  }

  lemma DigitsNoColon(s: string)
    requires AllDigits(s)
    ensures NoColon(s)
  {
    forall i | 0 <= i < |s| ensures s[i] != ':' { assert IsDigit(s[i]); }
  }

  // ---------------------------------------------------------------- what the figures mean

  function CountOf(events: seq<Fact>, name: Name): nat {
    if events == [] then 0
    else CountOf(events[..|events| - 1], name) + if events[|events| - 1].name == name then 1 else 0
  }

  function AmountOf(e: Fact): nat {
    if e.name == Supported && e.args.Some? && GivenNumber(e.args.value.amount)
    then Value(e.args.value.amount.value) else 0
  }

  /** The sum of the support amounts later than `from`. */
  function Inflow(events: seq<Fact>, from: int): nat {
    if events == [] then 0
    else
      var e := events[|events| - 1];
      Inflow(events[..|events| - 1], from) + if e.time > from then AmountOf(e) else 0
  }

  predicate IsPair(e: Fact, p: (string, string)) {
    e.name == Supported && e.demandId == Some(p.0) && e.args.Some? && e.args.value.supporter == Some(p.1)
  }

  /** Every support of this pair is later than `from`. */
  predicate OnlySince(events: seq<Fact>, p: (string, string), from: int) {
    forall i | 0 <= i < |events| && IsPair(events[i], p) :: events[i].time > from
  }

  function PairOf(e: Fact): (string, string) {
    (if e.demandId.Some? then e.demandId.value else "",
     if e.args.Some? && e.args.value.supporter.Some? then e.args.value.supporter.value else "")
  }

  function Pairs(events: seq<Fact>): set<(string, string)> {
    set i | 0 <= i < |events| && events[i].name == Supported :: PairOf(events[i])
  }

  function NewPairs(events: seq<Fact>, from: int): set<(string, string)> {
    set p | p in Pairs(events) && OnlySince(events, p, from)
  }

  function KeyOf(e: Fact): string {
    if e.args.Some? && e.args.value.demandKey.Some? then e.args.value.demandKey.value else ""
  }

  function Keys(events: seq<Fact>): set<string> {
    set i | 0 <= i < |events| && events[i].name == Created :: KeyOf(events[i])
  }

  predicate CreatedIn(events: seq<Fact>, id: string) {
    exists i :: 0 <= i < |events| && events[i].name == Created && events[i].demandId == Some(id)
  }

  /** The time of the latest creation of this demand; a valid history has only one. */
  function CreationTime(events: seq<Fact>, id: string): nat {
    if events == [] then 0
    else
      var e := events[|events| - 1];
      if e.name == Created && e.demandId == Some(id) then e.time else CreationTime(events[..|events| - 1], id)
  }

  /** The sum over the fulfilments of the time since their creation. */
  function TotalDuration(events: seq<Fact>): int {
    if events == [] then 0
    else
      var init, e := events[..|events| - 1], events[|events| - 1];
      TotalDuration(init) + if e.name == Fulfilled && e.demandId.Some? then
        e.time - CreationTime(init, e.demandId.value) else 0
  }

  predicate TimesOrdered(events: seq<Fact>) {
    forall i, j | 0 <= i < j < |events| :: events[i].time <= events[j].time
  }

  // ---------------------------------------------------------------- the sets the fold keeps

  predicate SupportedText(events: seq<Fact>, text: string) {
    exists i :: 0 <= i < |events| && events[i].name == Supported &&
      text == Joined(PairOf(events[i]).0, PairOf(events[i]).1)
  }

  function NonceText(e: Fact): string {
    Joined(if e.demandId.Some? then e.demandId.value else "",
           if e.args.Some? && e.args.value.nonce.Some? then e.args.value.nonce.value else "")
  }

  predicate NonceIn(events: seq<Fact>, name: Name, text: string) {
    exists i :: 0 <= i < |events| && events[i].name == name && text == NonceText(events[i])
  }

  predicate FulfilledIn(events: seq<Fact>, id: string) {
    exists i :: 0 <= i < |events| && events[i].name == Fulfilled && events[i].demandId == Some(id)
  }

  ghost predicate CreatedKept(acc: Acc, events: seq<Fact>) {
    && (forall id :: id in acc.created <==> CreatedIn(events, id))
    && (forall id | id in acc.created :: acc.created[id] == CreationTime(events, id))
  }

  ghost predicate PairsKept(acc: Acc, events: seq<Fact>) {
    forall text :: text in acc.pairs <==> SupportedText(events, text)
  }

  ghost predicate NoncesKept(acc: Acc, events: seq<Fact>) {
    && (forall text :: text in acc.submissions <==> NonceIn(events, Submitted, text))
    && (forall text :: text in acc.reopens <==> NonceIn(events, Rejected, text))
  }

  ghost predicate FulfilledKept(acc: Acc, events: seq<Fact>) {
    forall id :: id in acc.fulfilled <==> FulfilledIn(events, id)
  }

  ghost predicate SetsKept(acc: Acc, events: seq<Fact>) {
    CreatedKept(acc, events) && PairsKept(acc, events) && NoncesKept(acc, events) && FulfilledKept(acc, events)
  }

  function Init(events: seq<Fact>): seq<Fact>
    requires events != []
  {
    events[..|events| - 1]
  }

  function Last(events: seq<Fact>): Fact
    requires events != []
  {
    events[|events| - 1]
  }

  lemma CreatedInLast(events: seq<Fact>, id: string)
    requires events != []
    ensures CreatedIn(events, id) <==>
              CreatedIn(Init(events), id) || (Last(events).name == Created && Last(events).demandId == Some(id))
  {
    if CreatedIn(Init(events), id) {
      var i :| 0 <= i < |Init(events)| && Init(events)[i].name == Created && Init(events)[i].demandId == Some(id);
      assert events[i] == Init(events)[i];
    }
  }

  lemma FulfilledInLast(events: seq<Fact>, id: string)
    requires events != []
    ensures FulfilledIn(events, id) <==>
              FulfilledIn(Init(events), id) || (Last(events).name == Fulfilled && Last(events).demandId == Some(id))
  {
    if FulfilledIn(Init(events), id) {
      var i :| 0 <= i < |Init(events)| && Init(events)[i].name == Fulfilled && Init(events)[i].demandId == Some(id);
      assert events[i] == Init(events)[i];
    }
  }

  lemma SupportedTextLast(events: seq<Fact>, text: string)
    requires events != []
    ensures SupportedText(events, text) <==>
              (SupportedText(Init(events), text) ||
               (Last(events).name == Supported && text == Joined(PairOf(Last(events)).0, PairOf(Last(events)).1)))
  {
    if SupportedText(Init(events), text) {
      var i :| 0 <= i < |Init(events)| && Init(events)[i].name == Supported &&
               text == Joined(PairOf(Init(events)[i]).0, PairOf(Init(events)[i]).1);
      assert events[i] == Init(events)[i];
    }
  }

  lemma NonceInLast(events: seq<Fact>, name: Name, text: string)
    requires events != []
    ensures NonceIn(events, name, text) <==>
              (NonceIn(Init(events), name, text) || (Last(events).name == name && text == NonceText(Last(events))))
  {
    if NonceIn(Init(events), name, text) {
      var i :| 0 <= i < |Init(events)| && Init(events)[i].name == name && text == NonceText(Init(events)[i]);
      assert events[i] == Init(events)[i];
    }
  }

  /** One more event keeps the sets right. */
  lemma SetsStep(before: Acc, events: seq<Fact>, after: Acc, until: int, from: int)
    requires events != [] && SetsKept(before, Init(events)) && Step(before, Last(events), until, from) == Some(after)
    ensures SetsKept(after, events)
  {
    forall id ensures id in after.created <==> CreatedIn(events, id) { CreatedInLast(events, id); }
    forall id ensures id in after.fulfilled <==> FulfilledIn(events, id) { FulfilledInLast(events, id); }
    forall text ensures text in after.pairs <==> SupportedText(events, text) { SupportedTextLast(events, text); }
    forall text ensures text in after.submissions <==> NonceIn(events, Submitted, text) {
      NonceInLast(events, Submitted, text);
    }
    forall text ensures text in after.reopens <==> NonceIn(events, Rejected, text) {
      NonceInLast(events, Rejected, text);
    }
  }

  lemma {:induction false} SetsAre(events: seq<Fact>, until: int, from: int)
    requires Fold(events, until, from).Some?
    ensures SetsKept(Fold(events, until, from).value, events)
  {
    if events != [] {
      SetsAre(Init(events), until, from);
      SetsStep(Fold(Init(events), until, from).value, events, Fold(events, until, from).value, until, from);
    }
  }

  // ---------------------------------------------------------------- accepted exactly when valid

  /** The nonce of the last event was seen before, as text and as a pair. */
  lemma NonceSeen(events: seq<Fact>)
    requires events != [] && DecimalIds(events) && Last(events).name in {Submitted, Rejected}
    requires Last(events).args.Some? && Given(Last(events).demandId) && GivenNumber(Last(events).args.value.nonce)
    requires forall i | 0 <= i < |events| && events[i].name in {Submitted, Rejected} ::
               Given(events[i].demandId) && events[i].args.Some? && GivenNumber(events[i].args.value.nonce)
    ensures NonceIn(Init(events), Last(events).name, NonceText(Last(events))) <==> EarlierNonce(events, |events| - 1)
  {
    var e := Last(events);
    if NonceIn(Init(events), e.name, NonceText(e)) {
      var i :| 0 <= i < |Init(events)| && Init(events)[i].name == e.name && NonceText(e) == NonceText(Init(events)[i]);
      assert events[i] == Init(events)[i];
      DigitsNoColon(events[i].demandId.value);
      DigitsNoColon(e.demandId.value);
      JoinedApart(events[i].demandId.value, events[i].args.value.nonce.value, e.demandId.value,
                  e.args.value.nonce.value);
      assert SameNonce(events[i], e);
    }
    if EarlierNonce(events, |events| - 1) {
      var j :| 0 <= j < |events| - 1 && SameNonce(events[j], events[|events| - 1]);
      assert Init(events)[j] == events[j];
    }
  }

  lemma EarlierIs(events: seq<Fact>, name: Name, id: string)
    requires events != []
    ensures name == Created ==> (EarlierId(events, |events| - 1, Created, Some(id)) <==> CreatedIn(Init(events), id))
    ensures name == Fulfilled ==>
              (EarlierId(events, |events| - 1, Fulfilled, Some(id)) <==> FulfilledIn(Init(events), id))
  {
    assert forall i | 0 <= i < |events| - 1 :: Init(events)[i] == events[i];
  }

  /** In a valid prefix a demand has one creation, so its recorded time decides whether a fulfilment is late enough. */
  lemma CreationIs(events: seq<Fact>, until: int, j: nat, id: string)
    requires ValidHistory(events, until) && j < |events| && events[j].name == Created && events[j].demandId == Some(id)
    ensures CreationTime(events, id) == events[j].time
    decreases |events|
  {
    var n := |events| - 1;
    if j < n {
      if events[n].name == Created && events[n].demandId == Some(id) {
        assert Fits(events, n, until);
        assert EarlierId(events, n, Created, Some(id));
        assert false;
      }
      ValidInit(events, until);
      CreationIs(Init(events), until, j, id);
    }
  }

  lemma ValidInit(events: seq<Fact>, until: int)
    requires events != [] && ValidHistory(events, until)
    ensures ValidHistory(Init(events), until)
  {
    forall i | 0 <= i < |Init(events)| ensures Fits(Init(events), i, until) {
      FitsInit(events, i, until);
    }
  }

  lemma FitsInit(events: seq<Fact>, i: nat, until: int)
    requires events != [] && i < |events| - 1
    ensures Fits(events, i, until) <==> Fits(Init(events), i, until)
  {
    var init := Init(events);
    assert forall j | 0 <= j < |init| :: init[j] == events[j];
    assert forall name, id :: EarlierId(events, i, name, id) <==> EarlierId(init, i, name, id);
    assert EarlierNonce(events, i) <==> EarlierNonce(init, i);
    assert CreatedBefore(events, i) <==> CreatedBefore(init, i);
  }

  lemma LastFits(events: seq<Fact>, acc: Acc, until: int, from: int)
    requires events != [] && ValidHistory(Init(events), until) && SetsKept(acc, Init(events)) && DecimalIds(events)
    ensures Step(acc, Last(events), until, from).Some? <==> Fits(events, |events| - 1, until)
  {
    var e, n := Last(events), |events| - 1;
    assert forall i | 0 <= i < n :: Init(events)[i] == events[i] && Fits(Init(events), i, until);
    if e.args.Some? && e.time <= until && Given(e.demandId) {
      EarlierIs(events, Created, e.demandId.value);
      EarlierIs(events, Fulfilled, e.demandId.value);
      if e.name in {Submitted, Rejected} && GivenNumber(e.args.value.nonce) { NonceSeen(events); }
      if e.name == Fulfilled { FulfilmentTime(events, acc, until); }
    }
  }

  lemma FulfilmentTime(events: seq<Fact>, acc: Acc, until: int)
    requires events != [] && ValidHistory(Init(events), until) && CreatedKept(acc, Init(events))
    requires Given(Last(events).demandId)
    ensures CreatedBefore(events, |events| - 1) <==>
              Last(events).demandId.value in acc.created &&
                acc.created[Last(events).demandId.value] <= Last(events).time
  {
    var e, id := Last(events), Last(events).demandId.value;
    if id in acc.created {
      var i :| 0 <= i < |Init(events)| && Init(events)[i].name == Created && Init(events)[i].demandId == Some(id);
      CreationIs(Init(events), until, i, id);
      assert events[i] == Init(events)[i];
    }
    if CreatedBefore(events, |events| - 1) {
      var j :| 0 <= j < |events| - 1 && events[j].name == Created && events[j].demandId == e.demandId &&
          events[j].time <= e.time;
      assert Init(events)[j] == events[j];
      CreationIs(Init(events), until, j, id);
    }
  }

  /** The fold accepts a history exactly when every event is in order. */
  lemma {:induction false} AcceptedIffValid(events: seq<Fact>, until: int, from: int)
    requires DecimalIds(events)
    ensures Fold(events, until, from).Some? <==> ValidHistory(events, until)
    decreases |events|
  {
    if events != [] {
      var init := Init(events);
      assert DecimalIds(init);
      AcceptedIffValid(init, until, from);
      forall i | 0 <= i < |init| ensures Fits(events, i, until) <==> Fits(init, i, until) {
        FitsInit(events, i, until);
      }
      if ValidHistory(init, until) {
        SetsAre(init, until, from);
        LastFits(events, Fold(init, until, from).value, until, from);
      }
      assert ValidHistory(events, until) <==> ValidHistory(init, until) && Fits(events, |events| - 1, until);
    }
  }

  // ---------------------------------------------------------------- the figures

  lemma {:induction false} SumsAre(events: seq<Fact>, until: int, from: int)
    requires Fold(events, until, from).Some?
    ensures var acc := Fold(events, until, from).value;
            acc.gross == Inflow(events, -1) && acc.windowGross == Inflow(events, from)
  {
    if events != [] { SumsAre(Init(events), until, from); }
  }

  /** What one event adds to the sizes. */
  lemma OneMoreCounted(before: Acc, e: Fact, after: Acc, until: int, from: int)
    requires Step(before, e, until, from) == Some(after)
    ensures |after.created| == |before.created| + if e.name == Created then 1 else 0
    ensures |after.submissions| == |before.submissions| + if e.name == Submitted then 1 else 0
    ensures |after.reopens| == |before.reopens| + if e.name == Rejected then 1 else 0
    ensures |after.fulfilled| == |before.fulfilled| + if e.name == Fulfilled then 1 else 0
  {
    if e.name == Created {
      assert after.created.Keys == before.created.Keys + {e.demandId.value};
      assert |after.created.Keys| == |after.created| && |before.created.Keys| == |before.created|;
    }
  }

  /** Every creation, submission, rejection and fulfilment counts once. */
  lemma {:induction false} CountsAre(events: seq<Fact>, until: int, from: int)
    requires Fold(events, until, from).Some?
    ensures var acc := Fold(events, until, from).value;
            && |acc.created| == CountOf(events, Created) && |acc.submissions| == CountOf(events, Submitted)
            && |acc.reopens| == CountOf(events, Rejected) && |acc.fulfilled| == CountOf(events, Fulfilled)
  {
    if events != [] {
      CountsAre(Init(events), until, from);
      OneMoreCounted(Fold(Init(events), until, from).value, Last(events), Fold(events, until, from).value, until, from);
    }
  }

  lemma KeysLast(events: seq<Fact>)
    requires events != []
    ensures Keys(events) == Keys(Init(events)) + if Last(events).name == Created then {KeyOf(Last(events))} else {}
  {
    var n := |events| - 1;
    forall k | k in Keys(Init(events)) ensures k in Keys(events) {
      var i :| 0 <= i < n && Init(events)[i].name == Created && KeyOf(Init(events)[i]) == k;
      assert events[i] == Init(events)[i];
    }
    forall k | k in Keys(events) && !(Last(events).name == Created && k == KeyOf(Last(events)))
      ensures k in Keys(Init(events))
    {
      var i :| 0 <= i < |events| && events[i].name == Created && KeyOf(events[i]) == k;
      assert Init(events)[i] == events[i];
    }
  }

  /** Repeats and distinct keys add up to the creations. */
  lemma {:induction false} RepeatsAre(events: seq<Fact>, until: int, from: int)
    requires Fold(events, until, from).Some?
    ensures var acc := Fold(events, until, from).value;
            acc.keys == Keys(events) && acc.repeats + |Keys(events)| == CountOf(events, Created)
  {
    if events != [] {
      RepeatsAre(Init(events), until, from);
      KeysLast(events);
    }
  }

  lemma PairsLast(events: seq<Fact>)
    requires events != []
    ensures Pairs(events) == Pairs(Init(events)) + if Last(events).name == Supported then {PairOf(Last(events))} else {}
  {
    var n := |events| - 1;
    forall p | p in Pairs(Init(events)) ensures p in Pairs(events) {
      var i :| 0 <= i < n && Init(events)[i].name == Supported && PairOf(Init(events)[i]) == p;
      assert events[i] == Init(events)[i];
    }
    forall p | p in Pairs(events) && !(Last(events).name == Supported && p == PairOf(Last(events)))
      ensures p in Pairs(Init(events))
    {
      var i :| 0 <= i < |events| && events[i].name == Supported && PairOf(events[i]) == p;
      assert Init(events)[i] == events[i];
    }
  }

  lemma OnlySinceLast(events: seq<Fact>, p: (string, string), from: int)
    requires events != []
    ensures OnlySince(events, p, from) <==>
              OnlySince(Init(events), p, from) && (IsPair(Last(events), p) ==> Last(events).time > from)
  {
    assert forall i | 0 <= i < |events| - 1 :: Init(events)[i] == events[i];
    if OnlySince(Init(events), p, from) && (IsPair(Last(events), p) ==> Last(events).time > from) {
      forall i | 0 <= i < |events| && IsPair(events[i], p) ensures events[i].time > from {
        assert i < |events| - 1 ==> IsPair(Init(events)[i], p);
      }
    }
    if OnlySince(events, p, from) {
      forall i | 0 <= i < |Init(events)| && IsPair(Init(events)[i], p) ensures Init(events)[i].time > from {
        assert IsPair(events[i], p);
      }
    }
  }

  predicate GoodSupports(events: seq<Fact>) {
    forall i | 0 <= i < |events| && events[i].name == Supported ::
      Given(events[i].demandId) && Canonical(events[i].demandId.value) && events[i].args.Some? &&
        Given(events[i].args.value.supporter)
  }

  /** The last pair was seen before, as text and as a pair. */
  lemma PairSeen(events: seq<Fact>, acc: Acc)
    requires events != [] && GoodSupports(events) && PairsKept(acc, Init(events)) && Last(events).name == Supported
    ensures Joined(PairOf(Last(events)).0, PairOf(Last(events)).1) in acc.pairs <==>
              PairOf(Last(events)) in Pairs(Init(events))
  {
    var p, init := PairOf(Last(events)), Init(events);
    if Joined(p.0, p.1) in acc.pairs {
      var i :| 0 <= i < |init| && init[i].name == Supported &&
          Joined(p.0, p.1) == Joined(PairOf(init[i]).0, PairOf(init[i]).1);
      assert events[i] == init[i];
      DigitsNoColon(p.0);
      DigitsNoColon(PairOf(init[i]).0);
      JoinedApart(p.0, p.1, PairOf(init[i]).0, PairOf(init[i]).1);
      assert PairOf(init[i]) in Pairs(init);
    }
  }

  /** A pair that was supported before and is supported again outside the window was never new. */
  lemma OldStaysOld(events: seq<Fact>, from: int)
    requires events != [] && TimesOrdered(events) && GoodSupports(events) && Last(events).name == Supported &&
               Last(events).time <= from
    ensures PairOf(Last(events)) !in NewPairs(Init(events), from)
  {
    var p, init := PairOf(Last(events)), Init(events);
    if p in Pairs(init) {
      var i :| 0 <= i < |init| && init[i].name == Supported && PairOf(init[i]) == p;
      assert events[i] == init[i] && IsPair(init[i], p);
      assert events[i].time <= events[|events| - 1].time;
    }
  }

  lemma NoSuchPair(events: seq<Fact>, p: (string, string))
    requires p !in Pairs(events)
    ensures forall i | 0 <= i < |events| :: !IsPair(events[i], p)
  {
    forall i | 0 <= i < |events| ensures !IsPair(events[i], p) {
      assert events[i].name == Supported ==> PairOf(events[i]) in Pairs(events);
    }
  }

  lemma NewPairsLast(events: seq<Fact>, from: int)
    requires events != [] && TimesOrdered(events) && GoodSupports(events)
    ensures NewPairs(events, from) == NewPairs(Init(events), from) +
              if Last(events).name == Supported && PairOf(Last(events)) !in Pairs(Init(events)) &&
                Last(events).time > from
              then {PairOf(Last(events))} else {}
  {
    PairsLast(events);
    var e, init := Last(events), Init(events);
    if e.name == Supported && e.time <= from { OldStaysOld(events, from); }
    forall p | p in Pairs(events)
      ensures OnlySince(events, p, from) <==> OnlySince(init, p, from) && (IsPair(e, p) ==> e.time > from)
    {
      OnlySinceLast(events, p, from);
    }
    if e.name == Supported && PairOf(e) !in Pairs(init) {
      NoSuchPair(init, PairOf(e));
      assert OnlySince(init, PairOf(e), from);
    }
    assert forall p :: IsPair(e, p) ==> p == PairOf(e);
  }

  lemma GoodInit(events: seq<Fact>)
    requires events != [] && TimesOrdered(events) && GoodSupports(events)
    ensures TimesOrdered(Init(events)) && GoodSupports(Init(events))
  {
    assert forall i | 0 <= i < |Init(events)| :: Init(events)[i] == events[i];
  }

  /** The pair of this event has no support before it. */
  predicate FirstOfPair(acc: Acc, e: Fact, from: int) {
    e.name == Supported && Joined(PairOf(e).0, PairOf(e).1) !in acc.pairs && e.time > from
  }

  lemma StepNewPairs(before: Acc, e: Fact, after: Acc, until: int, from: int)
    requires Step(before, e, until, from) == Some(after)
    ensures after.newPairs == before.newPairs + if FirstOfPair(before, e, from) then 1 else 0
  {
  }

  /** What one event adds to the count of new pairs. */
  lemma NewPairsStep(acc: Acc, events: seq<Fact>, from: int)
    requires events != [] && TimesOrdered(events) && GoodSupports(events) && PairsKept(acc, Init(events))
    ensures |NewPairs(events, from)| == |NewPairs(Init(events), from)| +
              if FirstOfPair(acc, Last(events), from) then 1 else 0
  {
    NewPairsLast(events, from);
    if Last(events).name == Supported { PairSeen(events, acc); }
    assert NewPairs(Init(events), from) <= Pairs(Init(events));
  }

  /** The new pairs are exactly the pairs with every support inside the window, because times do not decrease. */
  lemma {:induction false} NewPairsAre(events: seq<Fact>, until: int, from: int)
    requires Fold(events, until, from).Some? && TimesOrdered(events) && GoodSupports(events)
    ensures Fold(events, until, from).value.newPairs == |NewPairs(events, from)|
  {
    if events != [] {
      GoodInit(events);
      NewPairsAre(Init(events), until, from);
      SetsAre(Init(events), until, from);
      var acc := Fold(Init(events), until, from).value;
      NewPairsStep(acc, events, from);
      StepNewPairs(acc, Last(events), Fold(events, until, from).value, until, from);
    }
  }

  // ---------------------------------------------------------------- the count of new pairs, whatever the times

  /** The first support of the pair in the list lies inside the window. */
  predicate FirstInside(events: seq<Fact>, p: (string, string), from: int) {
    exists i | 0 <= i < |events| :: IsPair(events[i], p) && events[i].time > from && NotBefore(events, p, i)
  }

  predicate NotBefore(events: seq<Fact>, p: (string, string), i: nat)
    requires i <= |events|
  {
    forall j | 0 <= j < i :: !IsPair(events[j], p)
  }

  function EnteredPairs(events: seq<Fact>, from: int): set<(string, string)> {
    set p | p in Pairs(events) && FirstInside(events, p, from)
  }

  lemma FirstInsideLast(events: seq<Fact>, p: (string, string), from: int)
    requires events != [] && GoodSupports(events)
    ensures p in Pairs(Init(events)) ==> (FirstInside(events, p, from) <==> FirstInside(Init(events), p, from))
    ensures p !in Pairs(Init(events)) && IsPair(Last(events), p) ==>
              (FirstInside(events, p, from) <==> Last(events).time > from)
  {
    var init, n := Init(events), |events| - 1;
    assert forall i | 0 <= i < n :: init[i] == events[i];
    if p in Pairs(init) {
      var k :| 0 <= k < n && init[k].name == Supported && PairOf(init[k]) == p;
      assert IsPair(events[k], p);
      if i :| 0 <= i < |events| && IsPair(events[i], p) && events[i].time > from && NotBefore(events, p, i) {
        assert IsPair(init[i], p) && NotBefore(init, p, i);
      }
      if i :| 0 <= i < n && IsPair(init[i], p) && init[i].time > from && NotBefore(init, p, i) {
        assert IsPair(events[i], p) && NotBefore(events, p, i);
      }
    } else {
      NoSuchPair(init, p);
      assert NotBefore(events, p, n);
    }
  }

  lemma EnteredLast(events: seq<Fact>, from: int)
    requires events != [] && GoodSupports(events)
    ensures EnteredPairs(events, from) == EnteredPairs(Init(events), from) +
              if Last(events).name == Supported && PairOf(Last(events)) !in Pairs(Init(events)) &&
                Last(events).time > from
              then {PairOf(Last(events))} else {}
  {
    PairsLast(events);
    forall p | p in Pairs(events)
      ensures p in Pairs(Init(events)) ==> (FirstInside(events, p, from) <==> FirstInside(Init(events), p, from))
      ensures p !in Pairs(Init(events)) ==>
                p == PairOf(Last(events)) && (FirstInside(events, p, from) <==> Last(events).time > from)
    {
      FirstInsideLast(events, p, from);
    }
  }

  /** What is counted, in any order of times: the pairs whose first listed support lies inside the window. */
  lemma {:induction false} NewPairsCount(events: seq<Fact>, until: int, from: int)
    requires Fold(events, until, from).Some? && GoodSupports(events)
    ensures Fold(events, until, from).value.newPairs == |EnteredPairs(events, from)|
  {
    if events != [] {
      assert forall i | 0 <= i < |Init(events)| :: Init(events)[i] == events[i];
      NewPairsCount(Init(events), until, from);
      SetsAre(Init(events), until, from);
      var acc := Fold(Init(events), until, from).value;
      EnteredLast(events, from);
      if Last(events).name == Supported { PairSeen(events, acc); }
      assert EnteredPairs(Init(events), from) <= Pairs(Init(events));
      StepNewPairs(acc, Last(events), Fold(events, until, from).value, until, from);
    }
  }

  /** A pair with every support inside the window entered there. */
  lemma {:induction false} NewEntered(events: seq<Fact>, p: (string, string), from: int)
    requires GoodSupports(events) && p in Pairs(events) && OnlySince(events, p, from)
    ensures FirstInside(events, p, from)
  {
    var init := Init(events);
    OnlySinceLast(events, p, from);
    FirstInsideLast(events, p, from);
    PairsLast(events);
    assert forall i | 0 <= i < |init| :: init[i] == events[i];
    if p in Pairs(init) {
      NewEntered(init, p, from);
    } else {
      assert Last(events) == events[|events| - 1] && IsPair(Last(events), p);
    }
  }

  /** The count is that of the pairs wholly inside the window if and only if no pair that enters inside it is listed
      again with a time before it. */
  lemma NewPairsIff(events: seq<Fact>, until: int, from: int)
    requires Fold(events, until, from).Some? && GoodSupports(events)
    ensures Fold(events, until, from).value.newPairs == |NewPairs(events, from)| <==>
              forall p | p in Pairs(events) && FirstInside(events, p, from) :: OnlySince(events, p, from)
  {
    NewPairsCount(events, until, from);
    var counted, meant := EnteredPairs(events, from), NewPairs(events, from);
    forall p | p in meant ensures p in counted { NewEntered(events, p, from); }
    if |counted| == |meant| {
      SameSize(meant, counted);
      forall p | p in Pairs(events) && FirstInside(events, p, from) ensures OnlySince(events, p, from) {
        assert p in counted;
      }
    }
    if forall p | p in Pairs(events) && FirstInside(events, p, from) :: OnlySince(events, p, from) {
      assert counted == meant;
    }
  }

  lemma {:induction false} DurationIs(events: seq<Fact>, until: int, from: int)
    requires Fold(events, until, from).Some?
    ensures Fold(events, until, from).value.duration == TotalDuration(events)
  {
    if events != [] {
      DurationIs(Init(events), until, from);
      SetsAre(Init(events), until, from);
    }
  }

  lemma SupportsGood(events: seq<Fact>, until: int)
    requires ValidHistory(events, until) && DecimalIds(events)
    ensures GoodSupports(events)
  {
    forall i | 0 <= i < |events| && events[i].name == Supported
      ensures Given(events[i].demandId) && Canonical(events[i].demandId.value) && events[i].args.Some? &&
              Given(events[i].args.value.supporter)
    {
      assert Fits(events, i, until);
    }
  }

  // ---------------------------------------------------------------- the report

  const DAY := 86400

  datatype Whole = NoHistory
                 | History(created: nat, gross: nat, submissions: nat, reopens: nat, repeats: nat, fulfilled: nat,
                           seconds: int)

  datatype Window = NoWindow | Trailing(gross: nat, newPairs: nat)

  datatype Report = Report(whole: Whole, window: Window)

  /** What the history says when it is available. */
  ghost predicate WholeMeans(w: Whole, events: seq<Fact>) {
    w.History? ==> && w.created == CountOf(events, Created) && w.gross == Inflow(events, -1)
                   && w.submissions == CountOf(events, Submitted) && w.reopens == CountOf(events, Rejected)
                   && w.repeats + |Keys(events)| == w.created && w.fulfilled == CountOf(events, Fulfilled)
                   && w.seconds == TotalDuration(events)
  }

  ghost predicate WindowMeans(w: Window, events: seq<Fact>, from: int) {
    w.Trailing? ==> && w.gross == Inflow(events, from)
                    && (TimesOrdered(events) ==> w.newPairs == |NewPairs(events, from)|)
  }

  lemma FiguresMean(events: seq<Fact>, until: int, from: int)
    requires DecimalIds(events) && Fold(events, until, from).Some?
    ensures var acc := Fold(events, until, from).value;
            && acc.repeats + |Keys(events)| == |acc.created| == CountOf(events, Created)
            && acc.gross == Inflow(events, -1) && acc.windowGross == Inflow(events, from)
            && |acc.submissions| == CountOf(events, Submitted) && |acc.reopens| == CountOf(events, Rejected)
            && |acc.fulfilled| == CountOf(events, Fulfilled) && acc.duration == TotalDuration(events)
            && (TimesOrdered(events) ==> acc.newPairs == |NewPairs(events, from)|)
  {
    AcceptedIffValid(events, until, from);
    SumsAre(events, until, from);
    CountsAre(events, until, from);
    RepeatsAre(events, until, from);
    DurationIs(events, until, from);
    SupportsGood(events, until);
    if TimesOrdered(events) { NewPairsAre(events, until, from); }
  }

  predicate Readable(s: S.State, trusted: bool) {
    trusted && s.coverage == S.Complete && s.reorg == S.Clear && s.cutoff.Some? && s.startAnchor.Some?
  }

  function WindowStart(s: S.State): int
    requires s.cutoff.Some?
  {
    s.cutoff.value.timestamp - DAY
  }

  /** The table begins no later than the window. */
  predicate Covered(s: S.State) {
    s.cutoff.Some? && s.startAnchor.Some? && 0 <= WindowStart(s) && s.startAnchor.value.timestamp <= WindowStart(s)
  }

  /** Figures are given only for a trusted, complete table and a valid history, and then mean what they say. */
  method BuildHistory(s: S.State, events: seq<Fact>, trusted: bool) returns (r: Report)
    requires DecimalIds(events)
    ensures r.whole.History? <==> Readable(s, trusted) && ValidHistory(events, s.cutoff.value.timestamp)
    ensures WholeMeans(r.whole, events)
    ensures r.window.Trailing? <==> r.whole.History? && Covered(s)
    ensures r.window.Trailing? ==> WindowMeans(r.window, events, WindowStart(s))
  {
    if !Readable(s, trusted) { return Report(NoHistory, NoWindow); }
    var until := s.cutoff.value.timestamp;
    var from := WindowStart(s);
    AcceptedIffValid(events, until, from);
    var folded := FoldEvents(events, until, from);
    if folded.None? { return Report(NoHistory, NoWindow); }
    FiguresMean(events, until, from);
    var acc := folded.value;
    var whole := History(|acc.created|, acc.gross, |acc.submissions|, |acc.reopens|, acc.repeats, |acc.fulfilled|,
                         acc.duration);
    var window := if from >= 0 && s.startAnchor.value.timestamp <= from
                  then Trailing(acc.windowGross, acc.newPairs) else NoWindow;
    r := Report(whole, window);
  }

  // ---------------------------------------------------------------- where the order of times comes from

  ghost predicate BlockTimesOrdered(h: Chain.Hash) {
    forall m, n | 0 <= m <= n < |h| :: h[m].timestamp <= h[n].timestamp
  }

  /** Rows of one branch in chain order have times in order, because block times do not decrease. */
  lemma RowsInTimeOrder(rows: seq<S.Event>, h: Chain.Hash, deploy: nat, i: nat, j: nat)
    requires S.Ordered(rows) && BlockTimesOrdered(h) && i < j < |rows|
    requires forall e | e in rows :: C.Belongs(e, h, deploy)
    ensures rows[i].timestamp <= rows[j].timestamp
  {
    assert rows[i] in rows && rows[j] in rows && S.Precedes(rows[i], rows[j]);
    RowTime(rows[i], h, deploy);
    RowTime(rows[j], h, deploy);
  }

  lemma RowTime(e: S.Event, h: Chain.Hash, deploy: nat)
    requires C.Belongs(e, h, deploy)
    ensures e.blockNumber < |h| && e.timestamp == h[e.blockNumber].timestamp
  {
    var l :| C.LogAt(h, e.blockNumber, l) && l.strict && e == C.RowOf(h[..e.blockNumber + 1], l);
  }

  // ---------------------------------------------------------------- from the stored table to the figures

  function NameOf(name: string): (n: Name)
    ensures n == Created <==> name == "DemandCreated"
    ensures n == Supported <==> name == "DemandSupported"
    ensures n == Submitted <==> name == "ServiceSubmitted"
    ensures n == Rejected <==> name == "SubmissionRejected"
    ensures n == Fulfilled <==> name == "DemandFulfilled"
  {
    if name == "DemandCreated" then Created
    else if name == "DemandSupported" then Supported
    else if name == "ServiceSubmitted" then Submitted
    else if name == "SubmissionRejected" then Rejected
    else if name == "DemandFulfilled" then Fulfilled
    else Other
  }

  /** A stored row as the fold sees it; `parse` reads a payload. */
  function FactOf(e: S.Event, parse: string -> Option<Args>): Fact {
    Fact(NameOf(e.name), if e.demandId.Some? then Some(Print(e.demandId.value)) else None, e.timestamp,
         parse(e.payload))
  }

  function FactsOf(rows: seq<S.Event>, parse: string -> Option<Args>): (facts: seq<Fact>)
    ensures |facts| == |rows| && forall i | 0 <= i < |rows| :: facts[i] == FactOf(rows[i], parse)
  {
    seq(|rows|, i requires 0 <= i < |rows| => FactOf(rows[i], parse))
  }

  lemma FactsDecimal(rows: seq<S.Event>, parse: string -> Option<Args>)
    ensures DecimalIds(FactsOf(rows, parse))
  {
    var facts := FactsOf(rows, parse);
    forall i | 0 <= i < |facts| && Given(facts[i].demandId) ensures Canonical(facts[i].demandId.value) {
      PrintCanonical(rows[i].demandId.value);
    }
  }

  /** The rows of a faithful table, listed in chain order, have their times in order. */
  lemma FactsOrdered(db: S.Db, rows: seq<S.Event>, parse: string -> Option<Args>)
    requires C.Faithful(db) && S.Ordered(rows) && S.Lists(rows, db.events)
    requires db.state.cutoff.Some? && BlockTimesOrdered(db.state.cutoff.value.blockHash)
    ensures TimesOrdered(FactsOf(rows, parse))
  {
    var h, deploy := db.state.cutoff.value.blockHash, db.state.deployBlock;
    forall e | e in rows ensures C.Belongs(e, h, deploy) {
      assert C.Belongs(db.events[S.IdentityOf(e)], h, deploy);
    }
    var facts := FactsOf(rows, parse);
    forall i, j | 0 <= i < j < |facts| ensures facts[i].time <= facts[j].time {
      RowsInTimeOrder(rows, h, deploy, i, j);
    }
  }

  ghost predicate ListedFacts(facts: seq<Fact>, events: map<S.Identity, S.Event>, parse: string -> Option<Args>) {
    exists rows :: S.Ordered(rows) && S.Lists(rows, events) && facts == FactsOf(rows, parse)
  }

  /** Block times do not decrease on the branch of the cutoff. */
  ghost predicate TimeGoesOn(s: S.State) {
    s.cutoff.Some? && BlockTimesOrdered(s.cutoff.value.blockHash)
  }

  method ReadFacts(store: S.Store, parse: string -> Option<Args>) returns (facts: seq<Fact>)
    requires store.Valid() && C.Faithful(store.Now())
    ensures ListedFacts(facts, store.events, parse) && DecimalIds(facts)
    ensures TimeGoesOn(store.state) ==> TimesOrdered(facts)
  {
    var rows := store.Events();
    facts := FactsOf(rows, parse);
    FactsDecimal(rows, parse);
    if TimeGoesOn(store.state) { FactsOrdered(store.Now(), rows, parse); }
  }

  /** The history of a stored table. Its rows being exactly the logs of one branch, whose block times do not decrease,
      all figures mean what they say, the count of new pairs included. */
  method StoredHistory(store: S.Store, parse: string -> Option<Args>, trusted: bool)
    returns (r: Report, facts: seq<Fact>)
    requires store.Valid() && C.Faithful(store.Now())
    ensures ListedFacts(facts, store.events, parse)
    ensures r.whole.History? <==>
              Readable(store.state, trusted) && ValidHistory(facts, store.state.cutoff.value.timestamp)
    ensures WholeMeans(r.whole, facts)
    ensures r.window.Trailing? <==> r.whole.History? && Covered(store.state)
    ensures r.window.Trailing? ==> WindowMeans(r.window, facts, WindowStart(store.state))
    ensures TimeGoesOn(store.state) ==> TimesOrdered(facts)
  {
    facts := ReadFacts(store, parse);
    r := BuildHistory(store.state, facts, trusted);
  }

  /** Without ordered times the count means less: a pair first supported inside the window, then listed again with a
      time before it, is still counted as new. */
  lemma DisorderMiscounts(a: Fact, b: Fact)
    requires a == Fact(Supported, Some("1"), 200, Some(Args(None, Some("s"), Some("5"), None)))
    requires b == a.(time := 50)
    ensures Fold([a, b], 300, 100).Some? && Fold([a, b], 300, 100).value.newPairs == 1
    ensures NewPairs([a, b], 100) == {}
  {
    assert Fold([], 300, 100) == Some(START);
    assert [a, b][..1] == [a] && [a][..0] == [];
    assert Fold([a], 300, 100) == Step(START, a, 300, 100);
    var p := ("1", "s");
    assert IsPair([a, b][1], p);
    assert forall q | q in Pairs([a, b]) :: q == p;
  }
}
