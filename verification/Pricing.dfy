/**
 An Actor's pricing history: validating a submission, the append-only rule, and which entry prices a run
 (`src/services/pricing.ts`).

 A submitted field is absent, of the wrong kind, or given; a timestamp is the millisecond it names. Objects keep
 their fields by name, so their order plays no part.
 */
module Pricing {
  import opened Wrappers

  type Name = string

  const PRICING_TIER := "BRONZE"

  datatype Given<T> = Absent | Wrong | Value(value: T)

  // ---------- What is submitted ----------

  datatype Model = Free | FlatPerMonth | PerDatasetItem | PayPerEvent | OtherModel

  /** `unknownField` says whether the object has a field the runtime does not know. */
  datatype RawEvent =
    | NoEventObject
    | RawEvent(
        unknownField: bool,
        title: Given<string>,
        description: Given<string>,
        oneTime: Given<bool>,
        primary: Given<bool>,
        flat: Given<real>,
        tiers: Given<map<Name, Given<real>>>)

  datatype RawEntry =
    | NoEntryObject
    | RawEntry(
        unknownField: bool,
        model: Model,
        createdAt: Given<int>,
        startedAt: Given<int>,
        margin: Given<real>,
        reason: Given<string>,
        perEvent: Given<RawPerEvent>)

  datatype RawPerEvent = RawPerEvent(unknownField: bool, events: Given<map<Name, RawEvent>>)

  // ---------- What is stored ----------

  datatype Price = Flat(usd: real) | Tiered(tiers: map<Name, real>)

  datatype ChargeEvent = ChargeEvent(
    title: string, description: string, oneTime: Option<bool>, primary: Option<bool>, price: Price)

  datatype Entry = Entry(
    payPerEvent: Option<map<Name, ChargeEvent>>,
    createdAt: int,
    startedAt: int,
    margin: real,
    reason: Option<string>)

  // ---------- Validating one entry ----------

  predicate IsSpace(c: char) {
    || c in "\t\n\U{B}\U{C}\r \U{A0}\U{1680}\U{2028}\U{2029}\U{202F}\U{205F}\U{3000}\U{FEFF}"
    || '\U{2000}' <= c <= '\U{200A}'
  }

  predicate IsBlank(s: string) {
    forall i :: 0 <= i < |s| ==> IsSpace(s[i])
  }

  function Optional<T>(given: Given<T>): Option<T> {
    if given.Value? then Some(given.value) else None
  }

  predicate ValidTiers(tiers: map<Name, Given<real>>) {
    && (forall tier :: tier in tiers ==> tiers[tier].Value? && tiers[tier].value >= 0.0)
    && PRICING_TIER in tiers
  }

  /** Exactly one of a flat and a tiered price, and neither negative. */
  predicate ValidPrice(raw: RawEvent)
    requires raw.RawEvent?
  {
    match (raw.flat, raw.tiers)
    case (Value(usd), Absent) => usd >= 0.0
    case (Absent, Value(tiers)) => ValidTiers(tiers)
    case _ => false
  }

  predicate ValidEvent(raw: RawEvent) {
    && raw.RawEvent? && !raw.unknownField
    && raw.title.Value? && !IsBlank(raw.title.value)
    && !raw.description.Wrong? && !raw.oneTime.Wrong? && !raw.primary.Wrong?
    && ValidPrice(raw)
  }

  function EventOf(raw: RawEvent): ChargeEvent
    requires ValidEvent(raw)
  {
    ChargeEvent(
      raw.title.value,
      if raw.description.Value? then raw.description.value else "",
      Optional(raw.oneTime),
      Optional(raw.primary),
      if raw.flat.Value? then Flat(raw.flat.value)
      else Tiered(map tier | tier in raw.tiers.value :: raw.tiers.value[tier].value))
  }

  predicate ValidEvents(raw: RawPerEvent) {
    && !raw.unknownField && raw.events.Value? && raw.events.value != map[]
    && forall name :: name in raw.events.value ==> !IsBlank(name) && ValidEvent(raw.events.value[name])
  }

  function EventsOf(raw: RawPerEvent): map<Name, ChargeEvent>
    requires ValidEvents(raw)
  {
    map name | name in raw.events.value :: EventOf(raw.events.value[name])
  }

  /** Rental and pay-per-result are refused like a model nobody knows. */
  predicate ValidEntry(raw: RawEntry) {
    && raw.RawEntry? && !raw.unknownField && (raw.model.Free? || raw.model.PayPerEvent?)
    && !raw.createdAt.Wrong? && !raw.startedAt.Wrong?
    && (raw.margin.Absent? || (raw.margin.Value? && 0.0 <= raw.margin.value <= 1.0))
    && !raw.reason.Wrong?
    && (if raw.model.Free? then raw.perEvent.Absent? else raw.perEvent.Value? && ValidEvents(raw.perEvent.value))
  }

  /** The entry as it is stored: every field a reader relies on is filled in. */
  function EntryOf(raw: RawEntry, now: int): Entry
    requires ValidEntry(raw)
  {
    var startedAt := if raw.startedAt.Value? then raw.startedAt.value else now;
    Entry(
      if raw.model.Free? then None else Some(EventsOf(raw.perEvent.value)),
      if raw.createdAt.Value? then raw.createdAt.value else startedAt,
      startedAt,
      if raw.margin.Value? then raw.margin.value else 0.0,
      Optional(raw.reason))
  }

  // ---------- Stored entries go back out, and may come back in ----------

  function Give<T>(option: Option<T>): Given<T> {
    if option.Some? then Value(option.value) else Absent
  }

  function RawOfEvent(event: ChargeEvent): RawEvent {
    RawEvent(false, Value(event.title), Value(event.description), Give(event.oneTime), Give(event.primary),
      if event.price.Flat? then Value(event.price.usd) else Absent,
      if event.price.Flat? then Absent
      else Value(map tier | tier in event.price.tiers :: Value(event.price.tiers[tier])))
  }

  function RawOf(entry: Entry): RawEntry {
    RawEntry(false, if entry.payPerEvent.Some? then PayPerEvent else Free,
      Value(entry.createdAt), Value(entry.startedAt), Value(entry.margin), Give(entry.reason),
      if entry.payPerEvent.None? then Absent
      else Value(RawPerEvent(false,
        Value(map name | name in entry.payPerEvent.value :: RawOfEvent(entry.payPerEvent.value[name])))))
  }

  lemma EventComesBack(raw: RawEvent)
    requires ValidEvent(raw)
    ensures ValidEvent(RawOfEvent(EventOf(raw))) && EventOf(RawOfEvent(EventOf(raw))) == EventOf(raw)
  {
    hide IsBlank;
    var event := EventOf(raw);
    if event.price.Tiered? {
      var again := RawOfEvent(event);
      assert ValidTiers(again.tiers.value);
      assert EventOf(again).price.tiers == event.price.tiers;
    }
  }

  /** Normalizing is a fixpoint: a stored entry is valid as it is, at any later time, and stored unchanged. */
  lemma {:induction false} EntryComesBack(raw: RawEntry, now: int, later: int)
    requires ValidEntry(raw)
    ensures ValidEntry(RawOf(EntryOf(raw, now))) && EntryOf(RawOf(EntryOf(raw, now)), later) == EntryOf(raw, now)
  {
    hide IsBlank, ValidEvent, EventOf, RawOfEvent;
    var entry := EntryOf(raw, now);
    if entry.payPerEvent.Some? {
      var events, again := raw.perEvent.value.events.value, RawOf(entry).perEvent.value;
      forall name | name in again.events.value
        ensures !IsBlank(name) && ValidEvent(again.events.value[name])
        ensures EventOf(again.events.value[name]) == entry.payPerEvent.value[name]
      {
        EventComesBack(events[name]);
      }
      assert again.events.value.Keys == events.Keys;
      var some :| some in events;
      assert some in again.events.value;
      assert EventsOf(again) == entry.payPerEvent.value;
    }
  }

  // ---------- What a submission means ----------

  predicate Says<T(==)>(given: Given<T>, option: Option<T>) {
    if option.Some? then given == Value(option.value) else given == Absent
  }

  /** A given field says the value; an absent one leaves it at what it is by default. */
  predicate SaysOr<T(==)>(given: Given<T>, value: T, default: T) {
    given == Value(value) || (given == Absent && value == default)
  }

  /** The submitted event says this one: every field as given, no other fields, one kind of price. */
  predicate EventSays(raw: RawEvent, event: ChargeEvent) {
    && raw.RawEvent? && !raw.unknownField && raw.title == Value(event.title)
    && SaysOr(raw.description, event.description, "")
    && Says(raw.oneTime, event.oneTime) && Says(raw.primary, event.primary)
    && match event.price
       case Flat(usd) => raw.flat == Value(usd) && raw.tiers == Absent
       case Tiered(tiers) =>
         && raw.flat == Absent && raw.tiers.Value? && raw.tiers.value.Keys == tiers.Keys
         && forall tier :: tier in tiers ==> raw.tiers.value[tier] == Value(tiers[tier])
  }

  /** No negative price, a price for the runtime's own tier, and a title. */
  predicate Sellable(event: ChargeEvent) {
    && !IsBlank(event.title)
    && match event.price
       case Flat(usd) => usd >= 0.0
       case Tiered(tiers) => PRICING_TIER in tiers && forall tier :: tier in tiers ==> tiers[tier] >= 0.0
  }

  predicate EntrySays(raw: RawEntry, entry: Entry, now: int) {
    && raw.RawEntry? && !raw.unknownField
    && SaysOr(raw.startedAt, entry.startedAt, now) && SaysOr(raw.createdAt, entry.createdAt, entry.startedAt)
    && SaysOr(raw.margin, entry.margin, 0.0) && Says(raw.reason, entry.reason)
    && match entry.payPerEvent
       case None => raw.model == Free && raw.perEvent == Absent
       case Some(events) =>
         && raw.model == PayPerEvent && raw.perEvent.Value? && !raw.perEvent.value.unknownField
         && raw.perEvent.value.events.Value? && raw.perEvent.value.events.value.Keys == events.Keys
         && forall name :: name in events ==> EventSays(raw.perEvent.value.events.value[name], events[name])
  }

  predicate Lawful(entry: Entry) {
    && 0.0 <= entry.margin <= 1.0
    && (entry.payPerEvent.Some? ==>
          && entry.payPerEvent.value != map[]
          && forall name :: name in entry.payPerEvent.value ==>
               !IsBlank(name) && Sellable(entry.payPerEvent.value[name]))
  }

  /** An event is accepted, and stored as this one, exactly if it says this one and that can be sold. */
  lemma EventIsWhatItSays(raw: RawEvent, event: ChargeEvent)
    ensures ValidEvent(raw) && EventOf(raw) == event <==> EventSays(raw, event) && Sellable(event)
  {
    hide IsBlank;
    if EventSays(raw, event) && Sellable(event) && event.price.Tiered? {
      assert ValidTiers(raw.tiers.value);
      assert EventOf(raw).price.tiers == event.price.tiers;
    }
    if ValidEvent(raw) && EventOf(raw) == event && raw.tiers.Value? {
      assert event.price.tiers.Keys == raw.tiers.value.Keys;
    }
  }

  /** An entry is accepted, and stored as this one, exactly if it says this one and that is lawful. */
  lemma EntryIsWhatItSays(raw: RawEntry, entry: Entry, now: int)
    ensures ValidEntry(raw) && EntryOf(raw, now) == entry <==> EntrySays(raw, entry, now) && Lawful(entry)
  {
    hide IsBlank, ValidEvent, EventOf, EventSays, Sellable;
    if EntrySays(raw, entry, now) && Lawful(entry) {
      if entry.payPerEvent.Some? {
        forall name | name in entry.payPerEvent.value
          ensures ValidEvent(raw.perEvent.value.events.value[name])
          ensures EventOf(raw.perEvent.value.events.value[name]) == entry.payPerEvent.value[name]
        {
          EventIsWhatItSays(raw.perEvent.value.events.value[name], entry.payPerEvent.value[name]);
        }
        var some :| some in entry.payPerEvent.value;
        assert EventsOf(raw.perEvent.value) == entry.payPerEvent.value;
      }
    }
    if ValidEntry(raw) && EntryOf(raw, now) == entry && entry.payPerEvent.Some? {
      forall name | name in entry.payPerEvent.value
        ensures EventSays(raw.perEvent.value.events.value[name], entry.payPerEvent.value[name])
        ensures Sellable(entry.payPerEvent.value[name])
      {
        EventIsWhatItSays(raw.perEvent.value.events.value[name], entry.payPerEvent.value[name]);
      }
      assert entry.payPerEvent.value.Keys == raw.perEvent.value.events.value.Keys;
      assert raw.perEvent.value.events.value != map[] ==> raw.perEvent.value.events.value.Keys != {};
    }
  }

  // ---------- Submissions ----------

  type History = seq<Entry>

  datatype Refusal = Malformed | CannotRemove | CannotAddMultiple | ChangedPrefix | AltersPast | SecondFuture

  datatype Result = Accepted(history: History) | Refused(refusal: Refusal)

  predicate AllValid(raw: seq<RawEntry>) {
    forall i :: 0 <= i < |raw| ==> ValidEntry(raw[i])
  }

  function EntriesOf(raw: seq<RawEntry>, now: int): (r: History)
    requires AllValid(raw)
    ensures |r| == |raw|
  {
    seq(|raw|, i requires 0 <= i < |raw| => EntryOf(raw[i], now))
  }

  predicate StartsAfterAll(entry: Entry, history: History) {
    forall i :: 0 <= i < |history| ==> history[i].startedAt < entry.startedAt
  }

  predicate NoneInFuture(history: History, now: int) {
    forall i :: 0 <= i < |history| ==> history[i].startedAt <= now
  }

  /** An update carries the stored entries unchanged and may add one that starts after all of them. */
  function Update(raw: seq<RawEntry>, current: History, now: int): Result {
    if !AllValid(raw) then Refused(Malformed)
    else
      var submitted := EntriesOf(raw, now);
      if |submitted| < |current| then Refused(CannotRemove)
      else if |submitted| - |current| > 1 then Refused(CannotAddMultiple)
      else if submitted[..|current|] != current then Refused(ChangedPrefix)
      else if |submitted| == |current| then Accepted(submitted)
      else
        var added := submitted[|submitted| - 1];
        if !StartsAfterAll(added, current) then Refused(AltersPast)
        else if added.startedAt > now && !NoneInFuture(current, now) then Refused(SecondFuture)
        else Accepted(submitted)
  }

  method ValidatePricingInfos(raw: seq<RawEntry>, now: int) returns (entries: Option<History>)
    ensures entries == if AllValid(raw) then Some(EntriesOf(raw, now)) else None
  {
    var infos: History := [];
    var i := 0;
    while i < |raw|
      invariant 0 <= i <= |raw| && AllValid(raw[..i]) && infos == EntriesOf(raw[..i], now)
    {
      if !ValidEntry(raw[i]) {
        return None;
      }
      assert raw[..i + 1] == raw[..i] + [raw[i]];
      infos := infos + [EntryOf(raw[i], now)];
      i := i + 1;
    }
    assert raw[..i] == raw;
    entries := Some(infos);
  }

  method ValidatePricingInfosUpdate(raw: seq<RawEntry>, current: History, now: int) returns (result: Result)
    ensures result == Update(raw, current, now)
  {
    var validated := ValidatePricingInfos(raw, now);
    if validated.None? {
      return Refused(Malformed);
    }
    var submitted := validated.value;
    if |submitted| < |current| {
      return Refused(CannotRemove);
    }
    if |submitted| - |current| > 1 {
      return Refused(CannotAddMultiple);
    }
    var i := 0;
    while i < |current|
      invariant 0 <= i <= |current| && submitted[..i] == current[..i]
    {
      if submitted[i] != current[i] {
        return Refused(ChangedPrefix);
      }
      i := i + 1;
    }
    if |submitted| == |current| {
      return Accepted(submitted);
    }
    var added := submitted[|submitted| - 1];
    var future := false;
    i := 0;
    while i < |current|
      invariant 0 <= i <= |current| && StartsAfterAll(added, current[..i])
      invariant future <==> !NoneInFuture(current[..i], now)
    {
      if added.startedAt <= current[i].startedAt {
        return Refused(AltersPast);
      }
      future := future || current[i].startedAt > now;
      i := i + 1;
    }
    assert current[..i] == current;
    if added.startedAt > now && future {
      return Refused(SecondFuture);
    }
    result := Accepted(submitted);
  }

  // ---------- The history over every sequence of submissions ----------

  datatype Submission = Submission(raw: seq<RawEntry>, now: int)

  function Applied(current: History, submission: Submission): History {
    var result := Update(submission.raw, current, submission.now);
    if result.Accepted? then result.history else current
  }

  function After(current: History, submissions: seq<Submission>): History
    decreases |submissions|
  {
    if submissions == [] then current else After(Applied(current, submissions[0]), submissions[1..])
  }

  ghost predicate Increasing(history: History) {
    forall i, j :: 0 <= i < j < |history| ==> history[i].startedAt < history[j].startedAt
  }

  /** Stored as some submission was normalized. */
  ghost predicate Normal(entry: Entry) {
    exists raw, now :: ValidEntry(raw) && entry == EntryOf(raw, now)
  }

  ghost predicate AllNormal(history: History) {
    forall i :: 0 <= i < |history| ==> Normal(history[i])
  }

  lemma AcceptedExtends(raw: seq<RawEntry>, current: History, now: int)
    requires Update(raw, current, now).Accepted?
    ensures var history := Update(raw, current, now).history;
      && current <= history && |history| <= |current| + 1
      && AllValid(raw) && history == EntriesOf(raw, now)
      && (|history| > |current| ==>
            && StartsAfterAll(history[|current|], current)
            && (history[|current|].startedAt > now ==> NoneInFuture(current, now)))
  {
    hide ValidEntry, EntryOf;
  }

  /** Accepted exactly if it repeats what is stored, or adds one entry behind it and no second future one. */
  lemma AcceptedExactly(raw: seq<RawEntry>, current: History, now: int, history: History)
    ensures Update(raw, current, now) == Accepted(history) <==>
      && AllValid(raw) && history == EntriesOf(raw, now)
      && (|| history == current
          || (&& |history| == |current| + 1 && current <= history
              && StartsAfterAll(history[|current|], current)
              && (history[|current|].startedAt <= now || NoneInFuture(current, now))))
  {
    hide ValidEntry, EntryOf;
    if AllValid(raw) && |raw| == |current| {
      assert EntriesOf(raw, now)[..|current|] == EntriesOf(raw, now);
    }
  }

  /** A refusal names the first thing that is wrong. */
  lemma RefusedExactly(raw: seq<RawEntry>, current: History, now: int, refusal: Refusal)
    requires Update(raw, current, now) == Refused(refusal)
    ensures refusal == Malformed <==> exists i :: 0 <= i < |raw| && !ValidEntry(raw[i])
    ensures AllValid(raw) ==> var history := EntriesOf(raw, now);
      && (refusal == CannotRemove <==> |history| < |current|)
      && (refusal == CannotAddMultiple <==> |history| > |current| + 1)
      && (refusal == ChangedPrefix <==> |current| <= |history| <= |current| + 1 && !(current <= history))
      && (|history| == |current| + 1 && current <= history ==>
            && (refusal == AltersPast <==>
                  exists i :: 0 <= i < |current| && current[i].startedAt >= history[|current|].startedAt)
            && (refusal in {AltersPast, SecondFuture}))
  {
    hide ValidEntry, EntryOf;
  }

  lemma AppliedKeeps(current: History, submission: Submission)
    requires Increasing(current) && AllNormal(current)
    ensures current <= Applied(current, submission) && |Applied(current, submission)| <= |current| + 1
    ensures Increasing(Applied(current, submission)) && AllNormal(Applied(current, submission))
  {
    hide ValidEntry, EntryOf, Update;
    var raw, now := submission.raw, submission.now;
    if Update(raw, current, now).Accepted? {
      AcceptedExtends(raw, current, now);
      var history := Update(raw, current, now).history;
      forall i | 0 <= i < |history| ensures Normal(history[i]) {
        assert ValidEntry(raw[i]) && history[i] == EntryOf(raw[i], now);
      }
    }
  }

  /** Over every sequence of submissions the history only grows at its end, and stays strictly increasing. */
  lemma {:induction false} HistoryOnlyGrows(current: History, submissions: seq<Submission>)
    requires Increasing(current) && AllNormal(current)
    ensures current <= After(current, submissions)
    ensures Increasing(After(current, submissions)) && AllNormal(After(current, submissions))
    decreases |submissions|
  {
    hide Increasing, AllNormal, Applied;
    if submissions != [] {
      AppliedKeeps(current, submissions[0]);
      HistoryOnlyGrows(Applied(current, submissions[0]), submissions[1..]);
    }
  }

  ghost predicate InOrder(submissions: seq<Submission>, start: int) {
    && (forall i :: 0 <= i < |submissions| ==> start <= submissions[i].now)
    && (forall i, j :: 0 <= i < j < |submissions| ==> submissions[i].now <= submissions[j].now)
  }

  /** All but the last entry have started. */
  predicate OneAhead(history: History, now: int) {
    history != [] ==> NoneInFuture(history[..|history| - 1], now)
  }

  lemma AppliedKeepsOneAhead(current: History, submission: Submission, before: int)
    requires OneAhead(current, before) && before <= submission.now
    ensures OneAhead(Applied(current, submission), submission.now)
  {
    hide ValidEntry, EntryOf, Update;
    var raw, now := submission.raw, submission.now;
    if Update(raw, current, now).Accepted? {
      AcceptedExtends(raw, current, now);
      var history := Update(raw, current, now).history;
      assert history == current || history[..|history| - 1] == current;
    }
  }

  /** While time does not run backwards, at most the last entry lies in the future. */
  lemma {:induction false} AtMostOneFutureEntry(current: History, submissions: seq<Submission>, start: int, later: int)
    requires OneAhead(current, start) && InOrder(submissions, start) && start <= later
    requires forall i :: 0 <= i < |submissions| ==> submissions[i].now <= later
    ensures OneAhead(After(current, submissions), later)
    decreases |submissions|
  {
    if submissions != [] {
      hide Applied, OneAhead;
      AppliedKeepsOneAhead(current, submissions[0], start);
      AtMostOneFutureEntry(Applied(current, submissions[0]), submissions[1..], submissions[0].now, later);
    }
  }

  function RawHistory(history: History): seq<RawEntry> {
    seq(|history|, i requires 0 <= i < |history| => RawOf(history[i]))
  }

  /** Submitting what is stored is accepted at any time, and changes nothing. */
  lemma ResubmittingChangesNothing(submissions: seq<Submission>, later: int)
    ensures var history := After([], submissions);
      Update(RawHistory(history), history, later) == Accepted(history)
  {
    HistoryOnlyGrows([], submissions);
    var history := After([], submissions);
    var raw := RawHistory(history);
    hide ValidEntry, EntryOf, RawOf;
    forall i | 0 <= i < |raw| ensures ValidEntry(raw[i]) && EntryOf(raw[i], later) == history[i] {
      NormalComesBack(history[i], later);
    }
    assert EntriesOf(raw, later) == history;
    assert history[..|history|] == history;
  }

  lemma NormalComesBack(entry: Entry, later: int)
    requires Normal(entry)
    ensures ValidEntry(RawOf(entry)) && EntryOf(RawOf(entry), later) == entry
  {
    var raw, now :| ValidEntry(raw) && entry == EntryOf(raw, now);
    EntryComesBack(raw, now, later);
  }

  // ---------- Looking up the entry in force ----------

  /** The scan: the entry with the latest start not after the date, the first one of equals. */
  function Effective(history: History, date: int): Option<Entry> {
    if history == [] then None
    else
      var before, info := Effective(history[..|history| - 1], date), history[|history| - 1];
      if info.startedAt > date then before
      else if before.None? || info.startedAt > before.value.startedAt then Some(info)
      else before
  }

  method EffectivePricingInfo(history: History, date: int) returns (effective: Option<Entry>)
    ensures effective == Effective(history, date)
  {
    effective := None;
    var i := 0;
    while i < |history|
      invariant 0 <= i <= |history| && effective == Effective(history[..i], date)
    {
      assert history[..i + 1][..i] == history[..i];
      var info := history[i];
      i := i + 1;
      if info.startedAt > date {
        continue;
      }
      if effective.None? || info.startedAt > effective.value.startedAt {
        effective := Some(info);
      }
    }
    assert history[..i] == history;
  }

  /** How many entries have started by a date. */
  function Started(history: History, date: int): (n: nat)
    ensures n <= |history|
  {
    if history == [] then 0
    else Started(history[..|history| - 1], date) + if history[|history| - 1].startedAt <= date then 1 else 0
  }

  /** In an increasing history the entries started by a date come first, and the last of them is in force. */
  lemma {:induction false} EffectiveIsLastStarted(history: History, date: int)
    requires Increasing(history)
    ensures var n := Started(history, date);
      && (forall i :: 0 <= i < |history| ==> (history[i].startedAt <= date <==> i < n))
      && Effective(history, date) == if n == 0 then None else Some(history[n - 1])
  {
    if history != [] {
      EffectiveIsLastStarted(history[..|history| - 1], date);
    }
  }

  /** A longer history answers every lookup dated before its first new entry as the shorter one did. */
  lemma {:induction false} GrowthKeepsThePast(history: History, longer: History, date: int)
    requires Increasing(longer) && history <= longer
    requires |history| < |longer| ==> date < longer[|history|].startedAt
    ensures Effective(longer, date) == Effective(history, date)
    decreases |longer|
  {
    if |history| < |longer| {
      var last := |longer| - 1;
      assert longer[|history|].startedAt <= longer[last].startedAt;
      GrowthKeepsThePast(history, longer[..last], date);
    } else {
      assert history == longer;
    }
  }

  /**
   A price a run was started at can always be read back: over every sequence of submissions, what was in
   force at a date stays so, whatever is appended, unless it starts by that date.
   */
  lemma PastPricesStay(submissions: seq<Submission>, more: seq<Submission>, date: int)
    ensures var history := After([], submissions); var longer := After(history, more);
      && history <= longer
      && (|history| == |longer| || date < longer[|history|].startedAt ==>
            Effective(longer, date) == Effective(history, date))
  {
    HistoryOnlyGrows([], submissions);
    var history := After([], submissions);
    HistoryOnlyGrows(history, more);
    hide After, Effective;
    if |history| == |After(history, more)| || date < After(history, more)[|history|].startedAt {
      GrowthKeepsThePast(history, After(history, more), date);
    }
  }
}
