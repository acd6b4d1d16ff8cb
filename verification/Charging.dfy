/**
 Pay-per-event charging of one run (`src/services/charging.ts`, `src/services/run-usage.ts`).

 The run's charges, its default dataset's pushes and its resurrections interleave between their awaits. The
 idempotency records are shared by all runs. Money is a real number of US dollars; `roundUsd` rounds it to
 whole millionths, halves up.
 */
module Charging {
  import opened JobStatus
  import opened ObjectNames
  import opened Wrappers

  type Name = string
  type Prices = seq<(Name, real)>

  const IDEMPOTENCY_TTL_MILLIS := 180_000
  const DEFAULT_DATASET_ITEM := "apify-default-dataset-item"
  const ACTOR_START := "apify-actor-start"

  predicate IsApifyEvent(name: Name) {
    "apify-" <= name
  }

  predicate IsPriced(prices: Prices, name: Name) {
    exists i :: 0 <= i < |prices| && prices[i].0 == name
  }

  function PricedNames(prices: Prices): (names: set<Name>)
    ensures forall name :: name in names <==> IsPriced(prices, name)
  {
    if prices == [] then {}
    else
      assert prices == prices[..|prices| - 1] + [prices[|prices| - 1]];
      PricedNames(prices[..|prices| - 1]) + {prices[|prices| - 1].0}
  }

  /** The `in` test of a charge: the priced events, and whatever their table inherits. */
  predicate IsAnswered(prices: Prices, name: Name) {
    IsPriced(prices, name) || IsInherited(name) || name == PROTOTYPE
  }

  // ---------- Counts ----------

  /** A stored count: a number, or the text that adding to an inherited function makes. */
  datatype Tally = Number(n: nat) | Garbled

  type Tallies = map<Name, Tally>

  /** What reading a count answers, with `0` for undefined: an inherited name is not undefined. */
  function Read(counts: Tallies, name: Name): Tally {
    if name == PROTOTYPE then Garbled
    else if name in counts then counts[name]
    else if IsInherited(name) then Garbled
    else Number(0)
  }

  function Plus(tally: Tally, count: nat): Tally {
    if tally.Number? then Number(tally.n + count) else Garbled
  }

  /** The write; text is no prototype, so that one write does nothing. */
  function Counted(counts: Tallies, name: Name, count: nat): Tallies {
    if name == PROTOTYPE then counts else counts[name := Plus(Read(counts, name), count)]
  }

  /** The number a record holds for an event, none where it holds no number. */
  function Count(counts: Tallies, name: Name): nat {
    if name in counts && counts[name].Number? then counts[name].n else 0
  }

  // ---------- Money ----------

  /** The millionths nearest to an amount, halves up. */
  function Micros(value: real): int {
    (value * 1000000.0 + 0.5).Floor
  }

  function RoundUsd(value: real): real {
    Micros(value) as real / 1000000.0
  }

  function EventUsd(price: (Name, real), counts: Tallies): real {
    Count(counts, price.0) as real * price.1
  }

  /** What the priced events add up to, each rounded on its own. */
  function SumUsd(prices: Prices, counts: Tallies): real {
    if prices == [] then 0.0
    else SumUsd(prices[..|prices| - 1], counts) + RoundUsd(EventUsd(prices[|prices| - 1], counts))
  }

  function TotalUsd(prices: Prices, counts: Tallies): real {
    RoundUsd(SumUsd(prices, counts))
  }

  method SumEventUsageUsd(prices: Prices, counts: Tallies) returns (total: real)
    ensures total == TotalUsd(prices, counts)
  {
    total := 0.0;
    var i := 0;
    while i < |prices|
      invariant 0 <= i <= |prices| && total == SumUsd(prices[..i], counts)
    {
      assert prices[..i + 1][..i] == prices[..i];
      total := total + RoundUsd(EventUsd(prices[i], counts));
      i := i + 1;
    }
    assert prices[..i] == prices;
    total := RoundUsd(total);
  }

  lemma RoundingIsClose(value: real)
    ensures -0.0000005 <= RoundUsd(value) - value <= 0.0000005
  {
    var floor := Micros(value);
    assert floor as real <= value * 1000000.0 + 0.5 < floor as real + 1.0;
  }

  lemma RoundedTwice(n: int)
    ensures RoundUsd(n as real / 1000000.0) == n as real / 1000000.0
  {
    assert (n as real / 1000000.0) * 1000000.0 == n as real;
    assert (n as real + 0.5).Floor == n;
  }

  function SumMicros(prices: Prices, counts: Tallies): int {
    if prices == [] then 0
    else SumMicros(prices[..|prices| - 1], counts) + Micros(EventUsd(prices[|prices| - 1], counts))
  }

  lemma {:induction false} SumIsWholeMicros(prices: Prices, counts: Tallies)
    ensures SumUsd(prices, counts) == SumMicros(prices, counts) as real / 1000000.0
  {
    if prices != [] {
      hide Micros, EventUsd;
      SumIsWholeMicros(prices[..|prices| - 1], counts);
    }
  }

  /** The exact amount: each event's count times its price. */
  function ExactUsd(prices: Prices, counts: Tallies): real {
    if prices == [] then 0.0
    else
      var (name, price) := prices[|prices| - 1];
      ExactUsd(prices[..|prices| - 1], counts) + Count(counts, name) as real * price
  }

  lemma {:induction false} SumIsClose(prices: Prices, counts: Tallies)
    ensures -0.0000005 * |prices| as real <= SumUsd(prices, counts) - ExactUsd(prices, counts)
    ensures SumUsd(prices, counts) - ExactUsd(prices, counts) <= 0.0000005 * |prices| as real
  {
    if prices != [] {
      hide RoundUsd, EventUsd;
      SumIsClose(prices[..|prices| - 1], counts);
      RoundingIsClose(EventUsd(prices[|prices| - 1], counts));
    }
  }

  /** Rounding the sum once more changes nothing; the total is off by half a millionth an event at most. */
  lemma {:induction false} TotalIsCloseToExact(prices: Prices, counts: Tallies)
    ensures TotalUsd(prices, counts) == SumUsd(prices, counts)
    ensures -0.0000005 * |prices| as real <= TotalUsd(prices, counts) - ExactUsd(prices, counts)
    ensures TotalUsd(prices, counts) - ExactUsd(prices, counts) <= 0.0000005 * |prices| as real
  {
    SumIsWholeMicros(prices, counts);
    RoundedTwice(SumMicros(prices, counts));
    SumIsClose(prices, counts);
  }

  lemma MicrosGrow(a: real, b: real)
    requires a <= b
    ensures Micros(a) <= Micros(b)
  {
  }

  /** Charging more of any event never lowers the total. */
  lemma {:induction false} MoreChargesCostMore(prices: Prices, counts: Tallies, more: Tallies)
    requires forall i :: 0 <= i < |prices| ==> prices[i].1 >= 0.0
    requires forall name :: Count(counts, name) <= Count(more, name)
    ensures TotalUsd(prices, counts) <= TotalUsd(prices, more)
  {
    SumGrows(prices, counts, more);
    MicrosGrow(SumUsd(prices, counts), SumUsd(prices, more));
  }

  lemma {:induction false} SumGrows(prices: Prices, counts: Tallies, more: Tallies)
    requires forall i :: 0 <= i < |prices| ==> prices[i].1 >= 0.0
    requires forall name :: Count(counts, name) <= Count(more, name)
    ensures SumUsd(prices, counts) <= SumUsd(prices, more)
  {
    if prices != [] {
      var last := prices[|prices| - 1];
      SumGrows(prices[..|prices| - 1], counts, more);
      EventGrows(last, counts, more);
      MicrosGrow(EventUsd(last, counts), EventUsd(last, more));
    }
  }

  lemma EventGrows(price: (Name, real), counts: Tallies, more: Tallies)
    requires price.1 >= 0.0 && Count(counts, price.0) <= Count(more, price.0)
    ensures EventUsd(price, counts) <= EventUsd(price, more)
  {
    var a, b := Count(counts, price.0) as real, Count(more, price.0) as real;
    assert (b - a) * price.1 >= 0.0;
  }

  // ---------- The run's charges ----------

  /**
   `landing` are the charges past their checks whose write has not landed, `stamping` the calls that saw the
   cap reached and are on their way to the stamp. `stamps` and `aborts` count what this incarnation did.
   */
  datatype Ledger = Ledger(
    id: string,
    prices: Option<Prices>,
    counts: Tallies,
    cap: Option<real>,
    stopped: bool,
    status: Status,
    registered: bool,
    reservations: map<string, int>,
    landing: seq<(Name, nat)>,
    stamping: nat,
    charged: bool,
    stamps: nat,
    aborts: nat,
    clock: int)

  datatype Answer = Charged | Replayed | NotPayPerEvent | ApifyEvent | UnknownEvent

  function RecordKey(runId: string, key: string): string {
    runId + ":" + key
  }

  /** Expired records are dropped before every lookup. */
  function Pruned(reservations: map<string, int>, now: int): map<string, int> {
    map key | key in reservations && reservations[key] > now :: reservations[key]
  }

  /** A key that is free, or whose record has expired, is reserved before anything is written. */
  function Reserved(ledger: Ledger, recordKey: string): Ledger {
    var kept := Pruned(ledger.reservations, ledger.clock);
    ledger.(reservations :=
      if recordKey in kept then kept else kept[recordKey := ledger.clock + IDEMPOTENCY_TTL_MILLIS])
  }

  predicate IsFree(ledger: Ledger, recordKey: string) {
    recordKey !in ledger.reservations || ledger.reservations[recordKey] <= ledger.clock
  }

  /** The checks, in their order. */
  function AnswerTo(ledger: Ledger, name: Name, key: string): Answer {
    if IsApifyEvent(name) then ApifyEvent
    else if ledger.prices.None? then NotPayPerEvent
    else if !IsAnswered(ledger.prices.value, name) then UnknownEvent
    else if !IsFree(ledger, RecordKey(ledger.id, key)) then Replayed
    else Charged
  }

  function ChargeCalled(ledger: Ledger, name: Name, count: nat, key: string): Ledger {
    match AnswerTo(ledger, name, key)
    case Charged => Reserved(ledger, RecordKey(ledger.id, key)).(landing := ledger.landing + [(name, count)])
    case Replayed => Reserved(ledger, RecordKey(ledger.id, key))
    case _ => ledger
  }

  /** A push into the run's default dataset charges its items, if the run prices them and is still running. */
  function Pushed(ledger: Ledger, items: int): Ledger {
    if items <= 0 || !ledger.registered then ledger
    else ledger.(landing := ledger.landing + [(DEFAULT_DATASET_ITEM, items)])
  }

  predicate CapReached(ledger: Ledger) {
    && ledger.cap.Some? && ledger.cap.value > 0.0
    && (if ledger.prices.Some? then TotalUsd(ledger.prices.value, ledger.counts) else 0.0) >= ledger.cap.value
  }

  /** The write of one charge, and what its caller does with the record it wrote. */
  function Increment(ledger: Ledger, name: Name, count: nat): Ledger {
    var next := ledger.(counts := Counted(ledger.counts, name, count), charged := true);
    if CapReached(next) && !next.stopped then next.(stamping := next.stamping + 1) else next
  }

  function Lands(ledger: Ledger, n: nat): Ledger {
    if n >= |ledger.landing| then ledger
    else
      var rest := ledger.(landing := ledger.landing[..n] + ledger.landing[n + 1..]);
      Increment(rest, ledger.landing[n].0, ledger.landing[n].1)
  }

  /** The stamp is set once; the call that set it aborts a run that is still running. */
  function StampLands(ledger: Ledger): Ledger {
    if ledger.stamping == 0 then ledger
    else if ledger.stopped then ledger.(stamping := ledger.stamping - 1)
    else ledger.(stamping := ledger.stamping - 1, stopped := true, stamps := ledger.stamps + 1,
                 aborts := ledger.aborts + if ledger.status == Running then 1 else 0)
  }

  function ActorStartCount(memoryMbytes: nat): nat {
    if memoryMbytes / 1024 > 1 then memoryMbytes / 1024 else 1
  }

  /** What a start charges, the first one and every resurrection. */
  function StartCharge(prices: Option<Prices>, memoryMbytes: nat): nat {
    if prices.Some? && IsPriced(prices.value, ACTOR_START) then ActorStartCount(memoryMbytes) else 0
  }

  /** Zero for every priced event, and the first start's charge. */
  function InitialCounts(prices: Prices, start: nat): Tallies {
    map name | name in PricedNames(prices) && name != PROTOTYPE ::
      Number(if name == ACTOR_START then start else 0)
  }

  function NewLedger(id: string, prices: Option<Prices>, cap: Option<real>, memoryMbytes: nat, clock: int): Ledger {
    var counts := if prices.Some? then InitialCounts(prices.value, StartCharge(prices, memoryMbytes)) else map[];
    Ledger(id, prices, counts, cap, false, Ready, prices.Some? && IsPriced(prices.value, DEFAULT_DATASET_ITEM),
           map[], [], 0, false, 0, 0, clock)
  }

  /** A finished run may be resurrected with the cap it had, a higher one, or none (`0`). */
  predicate CanResurrect(ledger: Ledger, cap: Option<real>) {
    && IsTerminal(ledger.status)
    && !(cap.Some? && ledger.cap.Some? && cap.value != 0.0 && cap.value < ledger.cap.value)
  }

  function Resurrect(ledger: Ledger, cap: Option<real>, memoryMbytes: nat): Ledger {
    if !CanResurrect(ledger, cap) then ledger
    else
      var charge := StartCharge(ledger.prices, memoryMbytes);
      ledger.(
        counts := if charge > 0 then Counted(ledger.counts, ACTOR_START, charge) else ledger.counts,
        cap := if cap.Some? then cap else ledger.cap,
        stopped := false, status := Ready, charged := false, stamps := 0, aborts := 0,
        registered := ledger.registered
          || (ledger.prices.Some? && IsPriced(ledger.prices.value, DEFAULT_DATASET_ITEM)))
  }

  datatype Event =
    | ChargeRequested(name: Name, count: nat, key: string)
    | OtherRunCharged(runId: string, key: string)
    | ItemsPushed(items: int)
    | ChargeLands(n: nat)
    | Stamp
    | StatusWritten(next: Status)
    | HandlerEnds
    | Resurrected(cap: Option<real>, memoryMbytes: nat)
    | TimePasses(millis: nat)

  function Step(ledger: Ledger, event: Event): Ledger {
    match event
    case ChargeRequested(name, count, key) => ChargeCalled(ledger, name, count, key)
    case OtherRunCharged(runId, key) => Reserved(ledger, RecordKey(runId, key))
    case ItemsPushed(items) => Pushed(ledger, items)
    case ChargeLands(n) => Lands(ledger, n)
    case Stamp => StampLands(ledger)
    case StatusWritten(next) => ledger.(status := Transition(ledger.status, next))
    case HandlerEnds => ledger.(registered := false)
    case Resurrected(cap, memoryMbytes) => Resurrect(ledger, cap, memoryMbytes)
    case TimePasses(millis) => ledger.(clock := ledger.clock + millis)
  }

  function After(ledger: Ledger, events: seq<Event>): Ledger
    decreases |events|
  {
    if events == [] then ledger else After(Step(ledger, events[0]), events[1..])
  }

  // ---------- Counts are conserved ----------

  /** What the charges on their way add to an event's count. */
  function LandingOf(landing: seq<(Name, nat)>, name: Name): nat {
    if landing == [] then 0
    else (if landing[0].0 == name then landing[0].1 else 0) + LandingOf(landing[1..], name)
  }

  /** What one event of a history is entitled to add to an event's count. */
  function Due(ledger: Ledger, event: Event, name: Name): nat {
    match event
    case ChargeRequested(charged, count, key) =>
      if charged == name && AnswerTo(ledger, charged, key) == Charged then count else 0
    case ItemsPushed(items) =>
      if name == DEFAULT_DATASET_ITEM && items > 0 && ledger.registered then items else 0
    case Resurrected(cap, memoryMbytes) =>
      if name == ACTOR_START && CanResurrect(ledger, cap) then StartCharge(ledger.prices, memoryMbytes) else 0
    case _ => 0
  }

  function AllDue(ledger: Ledger, events: seq<Event>, name: Name): nat
    decreases |events|
  {
    if events == [] then 0 else Due(ledger, events[0], name) + AllDue(Step(ledger, events[0]), events[1..], name)
  }

  lemma {:induction false} LandingConcat(a: seq<(Name, nat)>, b: seq<(Name, nat)>, name: Name)
    ensures LandingOf(a + b, name) == LandingOf(a, name) + LandingOf(b, name)
  {
    if a == [] {
      assert a + b == b;
    } else {
      assert (a + b)[1..] == a[1..] + b;
      LandingConcat(a[1..], b, name);
    }
  }

  lemma OneLands(landing: seq<(Name, nat)>, n: nat, name: Name)
    requires n < |landing|
    ensures LandingOf(landing, name)
         == LandingOf(landing[..n] + landing[n + 1..], name) + if landing[n].0 == name then landing[n].1 else 0
  {
    var front, back := landing[..n], landing[n + 1..];
    assert landing == front + ([landing[n]] + back);
    LandingConcat(front, [landing[n]] + back, name);
    LandingConcat(front, back, name);
    assert ([landing[n]] + back)[1..] == back;
  }

  lemma OneMoreOnTheWay(landing: seq<(Name, nat)>, charge: (Name, nat), name: Name)
    ensures LandingOf(landing + [charge], name)
         == LandingOf(landing, name) + if charge.0 == name then charge.1 else 0
  {
    LandingConcat(landing, [charge], name);
    assert LandingOf([charge], name) == if charge.0 == name then charge.1 else 0;
  }

  /** The record's count of this event is a number, and the next charge adds to that number. */
  predicate KeepsCount(counts: Tallies, name: Name) {
    Read(counts, name).Number?
  }

  lemma CountedAdds(counts: Tallies, charged: Name, count: nat, name: Name)
    requires KeepsCount(counts, name)
    ensures KeepsCount(Counted(counts, charged, count), name)
    ensures Count(Counted(counts, charged, count), name)
         == Count(counts, name) + if charged == name then count else 0
  {
    hide IsInherited;
  }

  lemma LandingMovesIntoCount(ledger: Ledger, n: nat, name: Name)
    requires KeepsCount(ledger.counts, name)
    ensures KeepsCount(Lands(ledger, n).counts, name)
    ensures Count(Lands(ledger, n).counts, name) + LandingOf(Lands(ledger, n).landing, name)
         == Count(ledger.counts, name) + LandingOf(ledger.landing, name)
  {
    hide CapReached, LandingOf, Counted, KeepsCount, Count;
    if n < |ledger.landing| {
      OneLands(ledger.landing, n, name);
      CountedAdds(ledger.counts, ledger.landing[n].0, ledger.landing[n].1, name);
    }
  }

  lemma ResurrectAddsStartCharge(ledger: Ledger, cap: Option<real>, memoryMbytes: nat, name: Name)
    requires KeepsCount(ledger.counts, name)
    ensures KeepsCount(Resurrect(ledger, cap, memoryMbytes).counts, name)
    ensures Count(Resurrect(ledger, cap, memoryMbytes).counts, name)
         == Count(ledger.counts, name) + Due(ledger, Event.Resurrected(cap, memoryMbytes), name)
    ensures Resurrect(ledger, cap, memoryMbytes).landing == ledger.landing
  {
    hide StartCharge, CanResurrect, AnswerTo, Counted, KeepsCount, Count;
    CountedAdds(ledger.counts, ACTOR_START, StartCharge(ledger.prices, memoryMbytes), name);
  }

  lemma StepConserves(ledger: Ledger, event: Event, name: Name)
    requires KeepsCount(ledger.counts, name)
    ensures KeepsCount(Step(ledger, event).counts, name)
    ensures Count(Step(ledger, event).counts, name) + LandingOf(Step(ledger, event).landing, name)
         == Count(ledger.counts, name) + LandingOf(ledger.landing, name) + Due(ledger, event, name)
  {
    hide LandingOf, Count, KeepsCount, Lands, Resurrect, StartCharge, CanResurrect, AnswerTo;
    match event
    case ChargeRequested(charged, count, key) => OneMoreOnTheWay(ledger.landing, (charged, count), name);
    case ItemsPushed(items) =>
      if items > 0 {
        OneMoreOnTheWay(ledger.landing, (DEFAULT_DATASET_ITEM, items), name);
      }
    case ChargeLands(n) => LandingMovesIntoCount(ledger, n, name);
    case Resurrected(cap, memoryMbytes) => ResurrectAddsStartCharge(ledger, cap, memoryMbytes, name);
    case _ =>
  }

  /**
   For every interleaving: an event's count, plus what is still on its way, is what it was plus every accepted
   charge, every item pushed while the run was live, and one start charge a resurrection; nothing else.
   */
  lemma {:induction false} CountsAreConserved(ledger: Ledger, events: seq<Event>, name: Name)
    requires KeepsCount(ledger.counts, name)
    ensures KeepsCount(After(ledger, events).counts, name)
    ensures Count(After(ledger, events).counts, name) + LandingOf(After(ledger, events).landing, name)
         == Count(ledger.counts, name) + LandingOf(ledger.landing, name) + AllDue(ledger, events, name)
    decreases |events|
  {
    hide Step, Count, KeepsCount, LandingOf, Due;
    if events != [] {
      StepConserves(ledger, events[0], name);
      CountsAreConserved(Step(ledger, events[0]), events[1..], name);
    }
  }

  /** A gigabyte of memory costs one start event, every whole one of them, and there is at least one. */
  predicate IsStartCharge(prices: Option<Prices>, memoryMbytes: nat, n: nat) {
    if prices.None? || !IsPriced(prices.value, ACTOR_START) then n == 0
    else n >= 1 && (n > 1 ==> 1024 * n <= memoryMbytes) && memoryMbytes < 1024 * (n + 1)
  }

  /** A new run has been charged its start and nothing else, and so is every resurrection once more. */
  lemma StartsAreCharged(id: string, prices: Option<Prices>, cap: Option<real>, memoryMbytes: nat, clock: int,
                         name: Name)
    ensures var ledger := NewLedger(id, prices, cap, memoryMbytes, clock);
      && IsStartCharge(prices, memoryMbytes, Count(ledger.counts, ACTOR_START))
      && (name != ACTOR_START ==> Count(ledger.counts, name) == 0)
      && (ledger.registered <==> prices.Some? && IsPriced(prices.value, DEFAULT_DATASET_ITEM))
    ensures IsStartCharge(prices, memoryMbytes, StartCharge(prices, memoryMbytes))
  {
    hide IsPriced;
  }

  /** Pushes are charged until the handler ends, and again for a run resurrected with the event priced. */
  lemma RegisteredExactly(ledger: Ledger, event: Event)
    ensures Step(ledger, event).registered <==>
      || (ledger.registered && event != HandlerEnds)
      || (Revives(ledger, event) && ledger.prices.Some? && IsPriced(ledger.prices.value, DEFAULT_DATASET_ITEM))
  {
    hide TotalUsd, Transition, AnswerTo, StartCharge, CanResurrect, Counted, Pruned, RecordKey, IsPriced;
  }

  // ---------- Exactly which names are counted ----------

  /** What the record holds for an event, nothing being zero, is a number: all that was due and has landed. */
  predicate Conserved(ledger: Ledger, events: seq<Event>, name: Name) {
    var after := After(ledger, events);
    && (name in after.counts ==> after.counts[name].Number?)
    && Count(after.counts, name) + LandingOf(after.landing, name)
       == Count(ledger.counts, name) + LandingOf(ledger.landing, name) + AllDue(ledger, events, name)
  }

  /** A name no object inherits, or a priced one: its count is there from the start. */
  predicate IsCounted(prices: Prices, name: Name) {
    name != PROTOTYPE && (IsPriced(prices, name) || !IsInherited(name))
  }

  lemma InheritedIsNoApifyEvent(name: Name)
    requires IsInherited(name) || name == PROTOTYPE
    ensures !IsApifyEvent(name)
  {
    assert name[0] != 'a';
  }

  /** An inherited name that is not priced is answered as priced, and its charge sets out. */
  lemma InheritedNameIsAccepted(id: string, prices: Prices, cap: Option<real>, memoryMbytes: nat, clock: int,
                                name: Name)
    requires !IsCounted(prices, name)
    ensures var ledger := NewLedger(id, Some(prices), cap, memoryMbytes, clock);
      var called := Step(ledger, ChargeRequested(name, 1, ""));
      AnswerTo(ledger, name, "") == Charged && called.landing == [(name, 1)] && called.counts == ledger.counts
  {
    InheritedIsNoApifyEvent(name);
    hide IsInherited, IsApifyEvent, CapReached, StartCharge, IsPriced, RecordKey;
    assert IsAnswered(prices, name);
  }

  /** One charge of an inherited name that is not priced: it is accepted, and no number counts it. */
  lemma InheritedNameIsNotCounted(id: string, prices: Prices, cap: Option<real>, memoryMbytes: nat, clock: int,
                                  name: Name)
    requires !IsCounted(prices, name)
    ensures var ledger := NewLedger(id, Some(prices), cap, memoryMbytes, clock);
      && AnswerTo(ledger, name, "") == Charged
      && !Conserved(ledger, [ChargeRequested(name, 1, ""), ChargeLands(0)], name)
  {
    var ledger := NewLedger(id, Some(prices), cap, memoryMbytes, clock);
    InheritedNameIsAccepted(id, prices, cap, memoryMbytes, clock, name);
    InheritedIsNoApifyEvent(name);
    var charge, lands := ChargeRequested(name, 1, ""), ChargeLands(0);
    TwoSteps(ledger, charge, lands, name);
    hide IsInherited, IsApifyEvent, CapReached, StartCharge, IsPriced, RecordKey, AnswerTo;
    var landed := Step(Step(ledger, charge), lands);
    assert landed.landing == [] && landed.counts == Counted(ledger.counts, name, 1);
    assert name != PROTOTYPE ==> Read(ledger.counts, name) == Garbled;
  }

  /** There is such a name in every table that does not price it. */
  lemma ToStringIsNotCounted(prices: Prices)
    requires !IsPriced(prices, "toString")
    ensures IsAnswered(prices, "toString") && !IsCounted(prices, "toString")
  {
    assert IsInherited("toString");
  }

  lemma TwoSteps(ledger: Ledger, first: Event, second: Event, name: Name)
    ensures After(ledger, [first, second]) == Step(Step(ledger, first), second)
    ensures AllDue(ledger, [first, second], name) == Due(ledger, first, name) + Due(Step(ledger, first), second, name)
  {
    hide Step, Due;
    var next := Step(ledger, first);
    assert [first, second][1..] == [second] && [second][1..] == [];
    assert After(next, [second]) == After(Step(next, second), []);
    assert AllDue(next, [second], name) == Due(next, second, name) + AllDue(Step(next, second), [], name);
  }

  /** For every run paid per event: a name is counted right over every history exactly if it is one of those. */
  lemma ConservedExactlyIfCounted(id: string, prices: Prices, cap: Option<real>, memoryMbytes: nat, clock: int,
                                  name: Name)
    ensures (forall events :: Conserved(NewLedger(id, Some(prices), cap, memoryMbytes, clock), events, name))
            <==> IsCounted(prices, name)
  {
    var ledger := NewLedger(id, Some(prices), cap, memoryMbytes, clock);
    if IsCounted(prices, name) {
      assert KeepsCount(ledger.counts, name);
      forall events ensures Conserved(ledger, events, name) {
        CountsAreConserved(ledger, events, name);
      }
    } else {
      InheritedNameIsNotCounted(id, prices, cap, memoryMbytes, clock, name);
    }
  }

  // ---------- One charge a key and three minutes ----------

  /** Whether this event is a charge accepted under the record key, of this run or another one. */
  predicate Accepts(ledger: Ledger, event: Event, recordKey: string) {
    match event
    case ChargeRequested(name, _, key) =>
      RecordKey(ledger.id, key) == recordKey && AnswerTo(ledger, name, key) == Charged
    case OtherRunCharged(runId, key) => RecordKey(runId, key) == recordKey && IsFree(ledger, recordKey)
    case _ => false
  }

  /** When charges were accepted under a record key. */
  function AcceptedAt(ledger: Ledger, events: seq<Event>, recordKey: string): seq<int>
    decreases |events|
  {
    if events == [] then []
    else (if Accepts(ledger, events[0], recordKey) then [ledger.clock] else [])
         + AcceptedAt(Step(ledger, events[0]), events[1..], recordKey)
  }

  /** Not before the key's record expires, and not before now. */
  function NextPossible(ledger: Ledger, recordKey: string): int {
    if IsFree(ledger, recordKey) then ledger.clock else ledger.reservations[recordKey]
  }

  lemma StepMovesOn(ledger: Ledger, event: Event, recordKey: string)
    ensures NextPossible(Step(ledger, event), recordKey) >= NextPossible(ledger, recordKey)
    ensures Accepts(ledger, event, recordKey) ==>
      && IsFree(ledger, recordKey)
      && NextPossible(Step(ledger, event), recordKey) >= ledger.clock + IDEMPOTENCY_TTL_MILLIS
  {
    hide CapReached, Transition, IsPriced, IsApifyEvent, RecordKey, StartCharge, CanResurrect;
  }

  lemma {:induction false} AcceptedOnlyWhenFree(ledger: Ledger, events: seq<Event>, recordKey: string)
    ensures forall i :: 0 <= i < |AcceptedAt(ledger, events, recordKey)| ==>
      AcceptedAt(ledger, events, recordKey)[i] >= NextPossible(ledger, recordKey)
    ensures forall i, j :: 0 <= i < j < |AcceptedAt(ledger, events, recordKey)| ==>
      AcceptedAt(ledger, events, recordKey)[j] - AcceptedAt(ledger, events, recordKey)[i] >= IDEMPOTENCY_TTL_MILLIS
    decreases |events|
  {
    hide Step, Accepts, IsFree;
    if events != [] {
      StepMovesOn(ledger, events[0], recordKey);
      AcceptedOnlyWhenFree(Step(ledger, events[0]), events[1..], recordKey);
      var rest := AcceptedAt(Step(ledger, events[0]), events[1..], recordKey);
      assert AcceptedAt(ledger, events, recordKey)
          == (if Accepts(ledger, events[0], recordKey) then [ledger.clock] else []) + rest;
    }
  }

  /** A name a charge can be made under: not the runtime's own, and found in the table of a run paid per event. */
  predicate Chargeable(prices: Option<Prices>, name: Name) {
    && prices.Some? && !("apify-" <= name)
    && ((exists i :: 0 <= i < |prices.value| && prices.value[i].0 == name) || IsInherited(name) || name == PROTOTYPE)
  }

  /** A charge accepted at that time, if any, no longer stands in the way of another one. */
  predicate IsPast(last: Option<int>, clock: int) {
    last.None? || clock - last.value >= 180_000
  }

  /** The last charge accepted under a record key, as the history tells: of this run or of another one. */
  function LastAccepted(id: string, prices: Option<Prices>, clock: int, last: Option<int>, events: seq<Event>,
                        recordKey: string): Option<int>
    decreases |events|
  {
    if events == [] then last
    else
      var now := clock + (if events[0].TimePasses? then events[0].millis else 0);
      LastAccepted(id, prices, now, NowAccepted(id, prices, clock, last, events[0], recordKey), events[1..], recordKey)
  }

  function NowAccepted(id: string, prices: Option<Prices>, clock: int, last: Option<int>, event: Event,
                       recordKey: string): Option<int> {
    match event
    case ChargeRequested(name, _, key) =>
      if RecordKey(id, key) == recordKey && Chargeable(prices, name) && IsPast(last, clock) then Some(clock) else last
    case OtherRunCharged(runId, key) =>
      if RecordKey(runId, key) == recordKey && IsPast(last, clock) then Some(clock) else last
    case _ => last
  }

  /** The records know the last charge accepted under a key as long as it counts. */
  predicate Remembers(ledger: Ledger, recordKey: string, last: Option<int>) {
    if IsPast(last, ledger.clock) then IsFree(ledger, recordKey)
    else
      recordKey in ledger.reservations && ledger.reservations[recordKey] == last.value + IDEMPOTENCY_TTL_MILLIS
  }

  lemma AnswerIsCharged(ledger: Ledger, name: Name, key: string)
    ensures AnswerTo(ledger, name, key) in {Charged, Replayed} <==> Chargeable(ledger.prices, name)
    ensures AnswerTo(ledger, name, key) == Charged ==> IsFree(ledger, RecordKey(ledger.id, key))
    ensures AnswerTo(ledger, name, key) == Replayed ==> !IsFree(ledger, RecordKey(ledger.id, key))
  {
    hide IsInherited, RecordKey, IsFree;
    if ledger.prices.Some? {
      assert IsPriced(ledger.prices.value, name) <==>
        exists i :: 0 <= i < |ledger.prices.value| && ledger.prices.value[i].0 == name;
    }
  }

  lemma ReservingRemembers(ledger: Ledger, of: string, recordKey: string, last: Option<int>)
    requires Remembers(ledger, recordKey, last)
    ensures Remembers(Reserved(ledger, of), recordKey,
                      if of == recordKey && IsPast(last, ledger.clock) then Some(ledger.clock) else last)
  {
  }

  lemma StepRemembers(ledger: Ledger, event: Event, recordKey: string, last: Option<int>)
    requires Remembers(ledger, recordKey, last)
    ensures Remembers(Step(ledger, event), recordKey,
                      NowAccepted(ledger.id, ledger.prices, ledger.clock, last, event, recordKey))
  {
    hide RecordKey, Transition, CapReached, StartCharge, CanResurrect, Chargeable, AnswerTo, Counted;
    match event
    case ChargeRequested(name, _, key) =>
      AnswerIsCharged(ledger, name, key);
      ReservingRemembers(ledger, RecordKey(ledger.id, key), recordKey, last);
      hide Reserved, Pruned;
    case OtherRunCharged(runId, key) => ReservingRemembers(ledger, RecordKey(runId, key), recordKey, last);
    case _ =>
  }

  lemma {:induction false} HistoryRemembers(ledger: Ledger, events: seq<Event>, recordKey: string, last: Option<int>)
    requires Remembers(ledger, recordKey, last)
    ensures Remembers(After(ledger, events), recordKey,
                      LastAccepted(ledger.id, ledger.prices, ledger.clock, last, events, recordKey))
    ensures After(ledger, events).id == ledger.id && After(ledger, events).prices == ledger.prices
    decreases |events|
  {
    if events != [] {
      StepRemembers(ledger, events[0], recordKey, last);
      StepKeepsTerms(ledger, events[0]);
      hide Step, Remembers, NowAccepted;
      var next := NowAccepted(ledger.id, ledger.prices, ledger.clock, last, events[0], recordKey);
      HistoryRemembers(Step(ledger, events[0]), events[1..], recordKey, next);
    }
  }

  lemma StepKeepsTerms(ledger: Ledger, event: Event)
    ensures var next := Step(ledger, event);
      && next.id == ledger.id && next.prices == ledger.prices
      && next.clock == ledger.clock + (if event.TimePasses? then event.millis else 0)
  {
    hide RecordKey, Transition, CapReached, StartCharge, CanResurrect, AnswerTo, Counted, Pruned;
  }

  /**
   After every history: a charge is answered by its name first, then by the run's pricing, then by the table; and
   one that could be made is put on its way exactly if none was accepted under its record key in the last three
   minutes. A charge of a priced event that lands adds its count.
   */
  lemma ChargedExactly(id: string, prices: Option<Prices>, cap: Option<real>, memoryMbytes: nat, clock: int,
                       events: seq<Event>, name: Name, count: nat, key: string)
    ensures var ledger := After(NewLedger(id, prices, cap, memoryMbytes, clock), events);
      var last := LastAccepted(id, prices, clock, None, events, RecordKey(id, key));
      var charged := Chargeable(prices, name) && IsPast(last, ledger.clock);
      var next := Step(ledger, ChargeRequested(name, count, key));
      && next.landing == ledger.landing + (if charged then [(name, count)] else []) && next.counts == ledger.counts
      && AnswerTo(ledger, name, key)
         == (if charged then Charged else if Chargeable(prices, name) then Replayed
             else if "apify-" <= name then ApifyEvent else if prices.None? then NotPayPerEvent else UnknownEvent)
      && (charged && name != PROTOTYPE && IsPriced(prices.value, name) ==>
            Count(Step(next, ChargeLands(|ledger.landing|)).counts, name) == Count(ledger.counts, name) + count)
  {
    var start := NewLedger(id, prices, cap, memoryMbytes, clock);
    var ledger := After(start, events);
    HistoryRemembers(start, events, RecordKey(id, key), None);
    AnswerIsCharged(ledger, name, key);
    var next := Step(ledger, ChargeRequested(name, count, key));
    if prices.Some? && name != PROTOTYPE && IsPriced(prices.value, name) {
      assert KeepsCount(start.counts, name);
      CountsAreConserved(start, events, name);
      hide CapReached, Counted, IsInherited, RecordKey, Reserved, AnswerTo, KeepsCount, Count;
      CountedAdds(ledger.counts, name, count, name);
      if next.landing != ledger.landing {
        LandedCounts(next, |ledger.landing|);
      }
    } else {
      hide IsInherited, RecordKey, Reserved;
    }
  }

  lemma LandedCounts(ledger: Ledger, n: nat)
    requires n < |ledger.landing|
    ensures var (name, count) := ledger.landing[n];
      Step(ledger, ChargeLands(n)).counts == Counted(ledger.counts, name, count)
  {
    hide CapReached, Counted;
  }

  /** Run ids hold no colon, so a record key names one run and one key. */
  lemma RecordKeysDoNotCollide(run: string, key: string, otherRun: string, otherKey: string)
    requires ':' !in run && ':' !in otherRun && RecordKey(run, key) == RecordKey(otherRun, otherKey)
    ensures run == otherRun && key == otherKey
  {
    var joined := RecordKey(run, key);
    assert joined[|run|] == ':' && joined[|otherRun|] == ':';
    assert forall i :: 0 <= i < |run| ==> joined[i] == run[i];
    assert forall i :: 0 <= i < |otherRun| ==> joined[i] == otherRun[i];
    assert run == joined[..|run|] && key == joined[|run| + 1..];
    assert otherRun == joined[..|otherRun|] && otherKey == joined[|otherRun| + 1..];
  }

  // ---------- The cap ----------

  /** Once a charge of this incarnation reached the cap, the stamp is set or someone is about to set it. */
  predicate CapWatched(ledger: Ledger) {
    ledger.charged && CapReached(ledger) ==> ledger.stopped || ledger.stamping > 0
  }

  predicate StampedOnce(ledger: Ledger) {
    && ledger.stamps == (if ledger.stopped then 1 else 0)
    && ledger.aborts <= ledger.stamps
  }

  lemma StepKeepsWatch(ledger: Ledger, event: Event)
    requires CapWatched(ledger) && StampedOnce(ledger)
    ensures CapWatched(Step(ledger, event)) && StampedOnce(Step(ledger, event))
  {
    hide TotalUsd, Transition, IsApifyEvent, IsPriced, RecordKey, StartCharge;
  }

  lemma {:induction false} EveryInterleaving(ledger: Ledger, events: seq<Event>)
    requires CapWatched(ledger) && StampedOnce(ledger)
    ensures CapWatched(After(ledger, events)) && StampedOnce(After(ledger, events))
    decreases |events|
  {
    hide Step, CapWatched, StampedOnce;
    if events != [] {
      StepKeepsWatch(ledger, events[0]);
      EveryInterleaving(Step(ledger, events[0]), events[1..]);
    }
  }

  /** What the run's priced events have come to is at or above a positive cap. */
  predicate SpentUp(ledger: Ledger) {
    && ledger.cap.Some? && ledger.prices.Some?
    && 0.0 < ledger.cap.value <= TotalUsd(ledger.prices.value, ledger.counts)
  }

  /** A charge's write lands. */
  predicate LandsCharge(ledger: Ledger, event: Event) {
    event.ChargeLands? && event.n < |ledger.landing|
  }

  predicate Revives(ledger: Ledger, event: Event) {
    event.Resurrected? && CanResurrect(ledger, event.cap)
  }

  /**
   What every event does to the stamp and the status: the charge that lands at or above the cap calls for the stamp,
   the call sets it once and aborts a running run, and a resurrection takes it back.
   */
  lemma StampsExactly(ledger: Ledger, event: Event)
    ensures var next := Step(ledger, event); var stamps := event == Stamp && ledger.stamping > 0;
      && next.stamping == ledger.stamping - (if stamps then 1 else 0)
         + (if LandsCharge(ledger, event) && SpentUp(next) && !ledger.stopped then 1 else 0)
      && (next.stopped <==> (ledger.stopped || stamps) && !Revives(ledger, event))
      && next.aborts == (if Revives(ledger, event) then 0 else ledger.aborts)
         + (if stamps && !ledger.stopped && ledger.status == Running then 1 else 0)
      && (next.charged <==> (ledger.charged || LandsCharge(ledger, event)) && !Revives(ledger, event))
      && next.status == (if Revives(ledger, event) then Ready
                         else if event.StatusWritten? then Transition(ledger.status, event.next) else ledger.status)
  {
    hide TotalUsd, Transition, AnswerTo, StartCharge, CanResurrect, Counted, Pruned, RecordKey;
  }

  /** A cap never falls: a finished run is resurrected with the cap it had, a higher one, or none, else not at all. */
  lemma ResurrectsExactly(ledger: Ledger, cap: Option<real>, memoryMbytes: nat)
    ensures var next := Step(ledger, Resurrected(cap, memoryMbytes));
      if IsTerminal(ledger.status)
         && (cap.None? || ledger.cap.None? || cap.value == 0.0 || cap.value >= ledger.cap.value)
      then
        && next.status == Ready && next.cap == (if cap.Some? then cap else ledger.cap)
        && !next.stopped && !next.charged && next.aborts == next.stamps == 0
        && next.landing == ledger.landing && next.stamping == ledger.stamping
        && next.reservations == ledger.reservations
      else next == ledger
  {
    hide StartCharge, Counted;
  }

  /** Whether a charge has landed since the run was started or last resurrected. */
  function HasCharged(ledger: Ledger, events: seq<Event>, before: bool): bool
    decreases |events|
  {
    if events == [] then before
    else
      var now := (before || LandsCharge(ledger, events[0])) && !Revives(ledger, events[0]);
      HasCharged(Step(ledger, events[0]), events[1..], now)
  }

  lemma {:induction false} ChargedTells(ledger: Ledger, events: seq<Event>)
    ensures After(ledger, events).charged == HasCharged(ledger, events, ledger.charged)
    decreases |events|
  {
    if events != [] {
      StampsExactly(ledger, events[0]);
      hide Step, SpentUp, LandsCharge, Revives;
      ChargedTells(Step(ledger, events[0]), events[1..]);
    }
  }

  /**
   After every interleaving: when no stamp is on its way, an incarnation whose charges reached a positive cap
   is stamped; each incarnation is stamped at most once, and aborted by the cap at most once, when stamped.
   */
  lemma CapStopsCharging(id: string, prices: Option<Prices>, cap: Option<real>, memoryMbytes: nat, clock: int,
                         events: seq<Event>)
    ensures var start := NewLedger(id, prices, cap, memoryMbytes, clock); var ledger := After(start, events);
      && (HasCharged(start, events, false) && SpentUp(ledger) && ledger.stamping == 0 ==> ledger.stopped)
      && ledger.stamps <= 1 && ledger.aborts <= ledger.stamps
      && (ledger.stamps == 1 <==> ledger.stopped)
  {
    var start := NewLedger(id, prices, cap, memoryMbytes, clock);
    EveryInterleaving(start, events);
    ChargedTells(start, events);
  }

  lemma CountsOnlyGrow(ledger: Ledger, event: Event, name: Name)
    ensures Count(Step(ledger, event).counts, name) >= Count(ledger.counts, name)
  {
    hide TotalUsd, Transition, AnswerTo, StartCharge, CanResurrect, Pruned, RecordKey, IsInherited, CapReached;
  }

  /** No stamp below the cap: while it is not resurrected, only a run whose charges reached its cap is stamped. */
  lemma {:induction false} NeverStoppedBelowTheCap(ledger: Ledger, events: seq<Event>)
    requires ledger.prices.Some? ==> forall i :: 0 <= i < |ledger.prices.value| ==> ledger.prices.value[i].1 >= 0.0
    requires forall i :: 0 <= i < |events| ==> !events[i].Resurrected?
    requires ledger.stopped || ledger.stamping > 0 ==> SpentUp(ledger)
    ensures After(ledger, events).stopped || After(ledger, events).stamping > 0 ==> SpentUp(After(ledger, events))
    decreases |events|
  {
    if events != [] {
      var next := Step(ledger, events[0]);
      StampsExactly(ledger, events[0]);
      StepKeepsTerms(ledger, events[0]);
      CapStays(ledger, events[0]);
      forall name ensures Count(ledger.counts, name) <= Count(next.counts, name) {
        CountsOnlyGrow(ledger, events[0], name);
      }
      if ledger.prices.Some? {
        MoreChargesCostMore(ledger.prices.value, ledger.counts, next.counts);
      }
      hide Step, TotalUsd, Count;
      NeverStoppedBelowTheCap(next, events[1..]);
    }
  }

  lemma CapStays(ledger: Ledger, event: Event)
    requires !event.Resurrected?
    ensures Step(ledger, event).cap == ledger.cap
  {
    hide TotalUsd, Transition, AnswerTo, Counted, Pruned, RecordKey;
  }

  // ---------- The service itself ----------

  /** The idempotency records of the service and the charging state of one run, changed in place. */
  class Billing {
    var reservations: map<string, int>
    var run: Ledger

    /** The run as the rest of the module sees it: with the service's records. */
    ghost function Current(): Ledger
      reads this
    {
      run.(reservations := reservations)
    }

    constructor (run: Ledger)
      ensures Current() == run
    {
      this.run, reservations := run, run.reservations;
    }

    method PruneIdempotencyRecords(now: int)
      modifies `reservations
      ensures reservations == Pruned(old(reservations), now)
    {
      var keys := reservations.Keys;
      ghost var all := reservations;
      while keys != {}
        invariant keys <= all.Keys
        invariant reservations == map key | key in all && (key in keys || all[key] > now) :: all[key]
        decreases |keys|
      {
        var key :| key in keys;
        if reservations[key] <= now {
          reservations := reservations - {key};
        }
        keys := keys - {key};
      }
    }

    method ChargeEvent(name: Name, count: nat, key: string) returns (answer: Answer)
      modifies this
      ensures Current() == ChargeCalled(old(Current()), name, count, key)
      ensures answer == AnswerTo(old(Current()), name, key)
    {
      if IsApifyEvent(name) {
        return ApifyEvent;
      }
      if run.prices.None? {
        return NotPayPerEvent;
      }
      if !IsAnswered(run.prices.value, name) {
        return UnknownEvent;
      }
      PruneIdempotencyRecords(run.clock);
      var recordKey := RecordKey(run.id, key);
      if recordKey in reservations {
        return Replayed;
      }
      reservations := reservations[recordKey := run.clock + IDEMPOTENCY_TTL_MILLIS];
      run := run.(landing := run.landing + [(name, count)]);
      answer := Charged;
    }

    /** The write of a charge, followed by the look at the cap with the record just written. */
    method IncrementChargedEventCount(n: nat)
      requires n < |run.landing|
      modifies `run
      ensures Current() == Lands(old(Current()), n)
    {
      var (name, count) := run.landing[n];
      run := run.(landing := run.landing[..n] + run.landing[n + 1..]);
      run := run.(counts := Counted(run.counts, name, count), charged := true);
      if run.cap.None? || run.cap.value <= 0.0 || run.stopped {
        return;
      }
      var total := 0.0;
      if run.prices.Some? {
        total := SumEventUsageUsd(run.prices.value, run.counts);
      }
      if total < run.cap.value {
        return;
      }
      run := run.(stamping := run.stamping + 1);
    }

    method StampChargingStopped() returns (aborts: bool)
      requires run.stamping > 0
      modifies `run
      ensures Current() == StampLands(old(Current()))
      ensures aborts == (!old(run).stopped && old(run).status == Running)
    {
      run := run.(stamping := run.stamping - 1);
      if run.stopped {
        return false;
      }
      run := run.(stopped := true, stamps := run.stamps + 1);
      aborts := run.status == Running;
      if aborts {
        run := run.(aborts := run.aborts + 1);
      }
    }
  }
}
