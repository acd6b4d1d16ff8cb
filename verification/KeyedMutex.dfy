/**
 The per-key promise queue behind every record write and log flush (`src/storage/mutex.ts`).

 Calls are numbered in the order they were made. A call waits for the one it found at the key's tail; when it
 has settled it removes the tail, unless a later call has already taken its place.
 */
module KeyedMutex {
  import opened Wrappers

  type Key = string

  datatype Phase = Waiting | Running | Settled | Returned

  datatype Call = Call(key: Key, previous: Option<nat>, phase: Phase)

  datatype Mutex = Mutex(calls: seq<Call>, tails: map<Key, nat>)

  predicate HasStarted(call: Call) {
    !call.phase.Waiting?
  }

  predicate HasSettled(call: Call) {
    call.phase.Settled? || call.phase.Returned?
  }

  datatype Event = Called(key: Key) | Starts(call: nat) | Settles(call: nat) | Returns(call: nat)

  function TailOf(mutex: Mutex, key: Key): Option<nat> {
    if key in mutex.tails then Some(mutex.tails[key]) else None
  }

  /** The function is run once the call before it has settled, well or badly. */
  predicate CanStart(mutex: Mutex, n: nat) {
    && n < |mutex.calls| && mutex.calls[n].phase == Waiting
    && (mutex.calls[n].previous.Some? ==>
          && mutex.calls[n].previous.value < |mutex.calls|
          && HasSettled(mutex.calls[mutex.calls[n].previous.value]))
  }

  function Enter(mutex: Mutex, key: Key): Mutex {
    Mutex(mutex.calls + [Call(key, TailOf(mutex, key), Waiting)], mutex.tails[key := |mutex.calls|])
  }

  function Moved(mutex: Mutex, n: nat, phase: Phase): Mutex
    requires n < |mutex.calls|
  {
    mutex.(calls := mutex.calls[n := mutex.calls[n].(phase := phase)])
  }

  /** The `finally`: the tail goes only if it is still this call's own. */
  function Leave(mutex: Mutex, n: nat): Mutex
    requires n < |mutex.calls|
  {
    var key := mutex.calls[n].key;
    var left := Moved(mutex, n, Returned);
    if TailOf(mutex, key) == Some(n) then left.(tails := mutex.tails - {key}) else left
  }

  function Step(mutex: Mutex, event: Event): Mutex {
    match event
    case Called(key) => Enter(mutex, key)
    case Starts(n) => if CanStart(mutex, n) then Moved(mutex, n, Running) else mutex
    case Settles(n) =>
      if n < |mutex.calls| && mutex.calls[n].phase == Running then Moved(mutex, n, Settled) else mutex
    case Returns(n) =>
      if n < |mutex.calls| && mutex.calls[n].phase == Settled then Leave(mutex, n) else mutex
  }

  function After(mutex: Mutex, events: seq<Event>): Mutex
    decreases |events|
  {
    if events == [] then mutex else After(Step(mutex, events[0]), events[1..])
  }

  // ---------- What every interleaving keeps ----------

  /** Every call waits for the call of its key made just before it, or there was nothing left to wait for. */
  ghost predicate Chained(calls: seq<Call>) {
    forall n :: 0 <= n < |calls| ==> Linked(calls, n)
  }

  ghost predicate Linked(calls: seq<Call>, n: int)
    requires 0 <= n < |calls|
  {
    match calls[n].previous
    case None => forall i :: 0 <= i < n && calls[i].key == calls[n].key ==> HasSettled(calls[i])
    case Some(p) =>
      && p < n && calls[p].key == calls[n].key
      && (forall i :: p < i < n ==> calls[i].key != calls[n].key)
  }

  /** First in, first out: a call has started only if all earlier calls of its key have settled. */
  ghost predicate InOrder(calls: seq<Call>) {
    forall i, j :: 0 <= i < j < |calls| && calls[i].key == calls[j].key && HasStarted(calls[j]) ==>
      HasSettled(calls[i])
  }

  predicate IsLatest(calls: seq<Call>, n: nat) {
    n < |calls| && forall i :: n < i < |calls| ==> calls[i].key != calls[n].key
  }

  /** A key has an entry exactly while its latest call has not returned. */
  ghost predicate TailsFit(mutex: Mutex) {
    && (forall key :: key in mutex.tails ==>
          && IsLatest(mutex.calls, mutex.tails[key])
          && mutex.calls[mutex.tails[key]].key == key
          && mutex.calls[mutex.tails[key]].phase != Returned)
    && (forall n: nat :: IsLatest(mutex.calls, n) && mutex.calls[n].phase != Returned ==>
          TailOf(mutex, mutex.calls[n].key) == Some(n))
  }

  ghost predicate Inv(mutex: Mutex) {
    Chained(mutex.calls) && InOrder(mutex.calls) && TailsFit(mutex)
  }

  /** A later phase of one call: the same calls, nothing settled undone. */
  ghost predicate Progressed(calls: seq<Call>, next: seq<Call>) {
    && |next| == |calls|
    && forall i :: 0 <= i < |calls| ==>
         && next[i].key == calls[i].key && next[i].previous == calls[i].previous
         && (HasSettled(calls[i]) ==> HasSettled(next[i]))
  }

  lemma ProgressKeepsChain(calls: seq<Call>, next: seq<Call>)
    requires Chained(calls) && Progressed(calls, next)
    ensures Chained(next)
  {
    forall n | 0 <= n < |next| ensures Linked(next, n) {
      assert Linked(calls, n);
    }
  }

  /** If no call of the key is pending at its tail, every call of the key has settled. */
  lemma NoTailAllSettled(mutex: Mutex, key: Key, i: nat)
    requires InOrder(mutex.calls) && TailsFit(mutex) && key !in mutex.tails
    requires i < |mutex.calls| && mutex.calls[i].key == key
    ensures HasSettled(mutex.calls[i])
    decreases |mutex.calls| - i
  {
    if IsLatest(mutex.calls, i) {
    } else {
      var j :| i < j < |mutex.calls| && mutex.calls[j].key == mutex.calls[i].key;
      NoTailAllSettled(mutex, key, j);
    }
  }

  lemma EnterKeepsChain(mutex: Mutex, key: Key)
    requires Inv(mutex)
    ensures Chained(Enter(mutex, key).calls)
  {
    var next := Enter(mutex, key);
    forall n | 0 <= n < |next.calls| ensures Linked(next.calls, n) {
      if n < |mutex.calls| {
        assert Linked(mutex.calls, n);
      } else if key !in mutex.tails {
        forall i | 0 <= i < n && next.calls[i].key == key ensures HasSettled(next.calls[i]) {
          NoTailAllSettled(mutex, key, i);
        }
      }
    }
  }

  lemma EnterKeepsTails(mutex: Mutex, key: Key)
    requires TailsFit(mutex)
    ensures TailsFit(Enter(mutex, key))
  {
    var next := Enter(mutex, key);
    forall n: nat | IsLatest(next.calls, n) && next.calls[n].phase != Returned
      ensures TailOf(next, next.calls[n].key) == Some(n)
    {
      if n < |mutex.calls| {
        assert next.calls[|mutex.calls|].key == key;
        assert IsLatest(mutex.calls, n) by {
          forall i | n < i < |mutex.calls| ensures mutex.calls[i].key != mutex.calls[n].key {
            assert next.calls[i] == mutex.calls[i];
          }
        }
      }
    }
  }

  lemma EnterKeeps(mutex: Mutex, key: Key)
    requires Inv(mutex)
    ensures Inv(Enter(mutex, key))
  {
    EnterKeepsChain(mutex, key);
    EnterKeepsTails(mutex, key);
    hide Chained, TailsFit;
  }

  lemma StartKeeps(mutex: Mutex, n: nat)
    requires Inv(mutex) && CanStart(mutex, n)
    ensures Inv(Moved(mutex, n, Running))
  {
    var next := Moved(mutex, n, Running);
    ProgressKeepsChain(mutex.calls, next.calls);
    SameTails(mutex, next);
    hide TailsFit, Chained;
    forall i | 0 <= i < n && mutex.calls[i].key == mutex.calls[n].key ensures HasSettled(mutex.calls[i]) {
      StartsBehindSettled(mutex, n, i);
    }
  }

  lemma StartsBehindSettled(mutex: Mutex, n: nat, i: nat)
    requires Chained(mutex.calls) && InOrder(mutex.calls) && CanStart(mutex, n)
    requires i < n && mutex.calls[i].key == mutex.calls[n].key
    ensures HasSettled(mutex.calls[i])
  {
    assert Linked(mutex.calls, n);
  }

  /** Neither the calls' keys nor which of them have returned has changed. */
  lemma SameTails(mutex: Mutex, next: Mutex)
    requires TailsFit(mutex) && next.tails == mutex.tails && |next.calls| == |mutex.calls|
    requires forall i :: 0 <= i < |mutex.calls| ==>
      next.calls[i].key == mutex.calls[i].key && (next.calls[i].phase == Returned <==> mutex.calls[i].phase == Returned)
    ensures TailsFit(next)
  {
    forall n: nat | IsLatest(next.calls, n) && next.calls[n].phase != Returned
      ensures TailOf(next, next.calls[n].key) == Some(n)
    {
      SameLatest(mutex, next, n);
    }
    forall key | key in next.tails
      ensures IsLatest(next.calls, next.tails[key]) && next.calls[next.tails[key]].key == key
      ensures next.calls[next.tails[key]].phase != Returned
    {
      SameLatest(mutex, next, next.tails[key]);
    }
  }

  lemma SameLatest(mutex: Mutex, next: Mutex, n: nat)
    requires |next.calls| == |mutex.calls|
    requires forall i :: 0 <= i < |mutex.calls| ==> next.calls[i].key == mutex.calls[i].key
    ensures IsLatest(next.calls, n) <==> IsLatest(mutex.calls, n)
  {
  }

  lemma SettleKeeps(mutex: Mutex, n: nat)
    requires Inv(mutex) && n < |mutex.calls| && mutex.calls[n].phase == Running
    ensures Inv(Moved(mutex, n, Settled))
  {
    var next := Moved(mutex, n, Settled);
    ProgressKeepsChain(mutex.calls, next.calls);
    SameTails(mutex, next);
    hide TailsFit, Chained;
  }

  lemma LeaveKeepsTails(mutex: Mutex, n: nat)
    requires TailsFit(mutex) && n < |mutex.calls| && mutex.calls[n].phase == Settled
    ensures TailsFit(Leave(mutex, n))
  {
    var next := Leave(mutex, n);
    forall m: nat | IsLatest(next.calls, m) && next.calls[m].phase != Returned
      ensures TailOf(next, next.calls[m].key) == Some(m)
    {
      SameLatest(mutex, next, m);
    }
    forall key | key in next.tails
      ensures IsLatest(next.calls, next.tails[key]) && next.calls[next.tails[key]].key == key
      ensures next.calls[next.tails[key]].phase != Returned
    {
      SameLatest(mutex, next, next.tails[key]);
    }
  }

  lemma LeaveKeeps(mutex: Mutex, n: nat)
    requires Inv(mutex) && n < |mutex.calls| && mutex.calls[n].phase == Settled
    ensures Inv(Leave(mutex, n))
  {
    ProgressKeepsChain(mutex.calls, Leave(mutex, n).calls);
    LeaveKeepsTails(mutex, n);
    hide TailsFit, Chained;
  }

  lemma StepKeeps(mutex: Mutex, event: Event)
    requires Inv(mutex)
    ensures Inv(Step(mutex, event))
  {
    hide Inv;
    match event
    case Called(key) => EnterKeeps(mutex, key);
    case Starts(n) =>
      if CanStart(mutex, n) {
        StartKeeps(mutex, n);
      }
    case Settles(n) =>
      if n < |mutex.calls| && mutex.calls[n].phase == Running {
        SettleKeeps(mutex, n);
      }
    case Returns(n) =>
      if n < |mutex.calls| && mutex.calls[n].phase == Settled {
        LeaveKeeps(mutex, n);
      }
  }

  lemma {:induction false} EveryInterleaving(mutex: Mutex, events: seq<Event>)
    requires Inv(mutex)
    ensures Inv(After(mutex, events))
    decreases |events|
  {
    hide Inv, Step;
    if events != [] {
      StepKeeps(mutex, events[0]);
      EveryInterleaving(Step(mutex, events[0]), events[1..]);
    }
  }

  /** Nothing has been called yet. */
  function Fresh(): Mutex {
    Mutex([], map[])
  }

  /**
   Over every interleaving of calls, starts and settlements: one function runs per key, the calls of a key run
   in the order they were made, and a key has an entry exactly while its latest call has not returned.
   */
  lemma OneRunsPerKeyInOrder(events: seq<Event>, i: nat, j: nat)
    ensures var mutex := After(Fresh(), events); var calls := mutex.calls;
      && (i < j < |calls| && calls[i].key == calls[j].key ==>
            && !(calls[i].phase.Running? && calls[j].phase.Running?)
            && (HasStarted(calls[j]) ==> HasSettled(calls[i])))
      && (IsLatest(calls, i) ==> (calls[i].key in mutex.tails <==> calls[i].phase != Returned))
  {
    EveryInterleaving(Fresh(), events);
    hide Chained, After;
    var mutex := After(Fresh(), events);
    if IsLatest(mutex.calls, i) && mutex.calls[i].phase != Returned {
      assert TailOf(mutex, mutex.calls[i].key) == Some(i);
    }
  }

  /**
   A call can start exactly when it waits and every earlier call of its key has settled: none is let in before
   its turn, and none waits for nothing.
   */
  lemma StartsExactlyInTurn(events: seq<Event>, n: nat)
    ensures var mutex := After(Fresh(), events);
      CanStart(mutex, n) <==>
        && n < |mutex.calls| && mutex.calls[n].phase == Waiting
        && forall i :: 0 <= i < n && mutex.calls[i].key == mutex.calls[n].key ==> HasSettled(mutex.calls[i])
  {
    EveryInterleaving(Fresh(), events);
    var mutex := After(Fresh(), events);
    hide TailsFit, After;
    if n < |mutex.calls| {
      assert Linked(mutex.calls, n);
      if CanStart(mutex, n) {
        forall i | 0 <= i < n && mutex.calls[i].key == mutex.calls[n].key ensures HasSettled(mutex.calls[i]) {
          StartsBehindSettled(mutex, n, i);
        }
      }
    }
  }

  // ---------- What one key sees ----------

  datatype Act = Began(call: nat) | Ended(call: nat)

  /** The function of this key that the event starts or settles, if it does. */
  function ActOf(mutex: Mutex, event: Event, key: Key): seq<Act> {
    match event
    case Starts(n) => if CanStart(mutex, n) && mutex.calls[n].key == key then [Began(n)] else []
    case Settles(n) =>
      if n < |mutex.calls| && mutex.calls[n].phase == Running && mutex.calls[n].key == key then [Ended(n)] else []
    case _ => []
  }

  function Schedule(mutex: Mutex, events: seq<Event>, key: Key): seq<Act>
    decreases |events|
  {
    if events == [] then [] else ActOf(mutex, events[0], key) + Schedule(Step(mutex, events[0]), events[1..], key)
  }

  /** One function after the other: each ends before the next begins, and the next is of a later call. */
  predicate Serial(acts: seq<Act>, running: Option<nat>, last: int)
    decreases |acts|
  {
    if acts == [] then true
    else match running
      case Some(n) => acts[0] == Ended(n) && Serial(acts[1..], None, n)
      case None => acts[0].Began? && acts[0].call > last && Serial(acts[1..], Some(acts[0].call), last)
  }

  /** `running` is the call of the key that runs, if one does, and `last` one of its calls that has settled. */
  ghost predicate Tracks(calls: seq<Call>, key: Key, running: Option<nat>, last: int) {
    && (forall i :: 0 <= i < |calls| && calls[i].key == key ==> (calls[i].phase == Running <==> running == Some(i)))
    && (running.Some? ==> running.value < |calls| && calls[running.value].key == key)
    && -1 <= last < |calls|
    && (last >= 0 ==> calls[last].key == key && HasSettled(calls[last]))
  }

  lemma BeginsInTurn(mutex: Mutex, n: nat, key: Key, running: Option<nat>, last: int)
    requires Inv(mutex) && Tracks(mutex.calls, key, running, last)
    requires CanStart(mutex, n) && mutex.calls[n].key == key
    ensures running == None && n > last && Tracks(Step(mutex, Starts(n)).calls, key, Some(n), last)
  {
    hide TailsFit, Linked;
    if running.Some? && running.value < n {
      StartsBehindSettled(mutex, n, running.value);
    }
  }

  lemma EndsAlone(mutex: Mutex, n: nat, key: Key, running: Option<nat>, last: int)
    requires Tracks(mutex.calls, key, running, last)
    requires n < |mutex.calls| && mutex.calls[n].phase == Running && mutex.calls[n].key == key
    ensures running == Some(n) && Tracks(Step(mutex, Settles(n)).calls, key, None, n)
  {
  }

  lemma OthersTracked(mutex: Mutex, event: Event, key: Key, running: Option<nat>, last: int)
    requires Tracks(mutex.calls, key, running, last) && ActOf(mutex, event, key) == []
    ensures Tracks(Step(mutex, event).calls, key, running, last)
  {
  }

  lemma {:induction false} ScheduleFrom(mutex: Mutex, events: seq<Event>, key: Key, running: Option<nat>, last: int)
    requires Inv(mutex) && Tracks(mutex.calls, key, running, last)
    ensures Serial(Schedule(mutex, events, key), running, last)
    decreases |events|
  {
    hide Inv, Step, Tracks, CanStart;
    if events != [] {
      var event, next := events[0], Step(mutex, events[0]);
      var acts, rest := ActOf(mutex, event, key), Schedule(next, events[1..], key);
      StepKeeps(mutex, event);
      if acts == [] {
        assert acts + rest == rest;
        OthersTracked(mutex, event, key, running, last);
        ScheduleFrom(next, events[1..], key, running, last);
      } else {
        assert (acts + rest)[1..] == rest;
        if event.Starts? {
          BeginsInTurn(mutex, event.call, key, running, last);
          ScheduleFrom(next, events[1..], key, Some(event.call), last);
        } else {
          EndsAlone(mutex, event.call, key, running, last);
          ScheduleFrom(next, events[1..], key, None, event.call);
        }
      }
    }
  }

  /** Every history, seen from any one key, is a serial one: the functions of a key run whole, in call order. */
  lemma EveryHistoryIsSerial(events: seq<Event>, key: Key)
    ensures Serial(Schedule(Fresh(), events, key), None, -1)
  {
    ScheduleFrom(Fresh(), events, key, None, -1);
  }

  // ---------- Every call is served ----------

  /** The first calls, one after the other: each is started, settles and returns, as far as it has not yet. */
  function Served(n: nat): seq<Event> {
    if n == 0 then [] else Served(n - 1) + [Starts(n - 1), Settles(n - 1), Returns(n - 1)]
  }

  lemma {:induction false} AfterConcat(mutex: Mutex, a: seq<Event>, b: seq<Event>)
    ensures After(mutex, a + b) == After(After(mutex, a), b)
    decreases |a|
  {
    hide Step;
    if a == [] {
      assert a + b == b;
    } else {
      assert (a + b)[1..] == a[1..] + b;
      AfterConcat(Step(mutex, a[0]), a[1..], b);
    }
  }

  lemma OneStep(mutex: Mutex, event: Event)
    ensures After(mutex, [event]) == Step(mutex, event)
  {
    hide Step;
    assert [event][1..] == [];
  }

  lemma ThreeSteps(mutex: Mutex, n: nat)
    ensures After(mutex, [Starts(n), Settles(n), Returns(n)])
         == Step(Step(Step(mutex, Starts(n)), Settles(n)), Returns(n))
  {
    hide Step, After;
    AfterConcat(mutex, [Starts(n)], [Settles(n), Returns(n)]);
    AfterConcat(Step(mutex, Starts(n)), [Settles(n)], [Returns(n)]);
    assert [Starts(n)] + [Settles(n), Returns(n)] == [Starts(n), Settles(n), Returns(n)];
    assert [Settles(n)] + [Returns(n)] == [Settles(n), Returns(n)];
    OneStep(mutex, Starts(n));
    OneStep(Step(mutex, Starts(n)), Settles(n));
    OneStep(Step(Step(mutex, Starts(n)), Settles(n)), Returns(n));
  }

  lemma OneServed(mutex: Mutex, n: nat)
    requires Chained(mutex.calls) && n < |mutex.calls|
    requires forall i :: 0 <= i < n ==> mutex.calls[i].phase == Returned
    ensures var served := Step(Step(Step(mutex, Starts(n)), Settles(n)), Returns(n));
      served.calls == mutex.calls[n := mutex.calls[n].(phase := Returned)]
  {
    assert Linked(mutex.calls, n);
    var started := Step(mutex, Starts(n));
    assert started.calls[n].phase != Waiting && started.calls == mutex.calls[n := started.calls[n]];
    var settled := Step(started, Settles(n));
    assert settled.calls[n].phase in {Settled, Returned} && settled.calls == mutex.calls[n := settled.calls[n]];
  }

  lemma {:induction false} ServingReturns(mutex: Mutex, n: nat)
    requires Inv(mutex) && n <= |mutex.calls|
    ensures var served := After(mutex, Served(n));
      && Inv(served) && |served.calls| == |mutex.calls|
      && (forall i :: 0 <= i < |served.calls| ==>
            served.calls[i] == if i < n then mutex.calls[i].(phase := Returned) else mutex.calls[i])
  {
    if n > 0 {
      ServingReturns(mutex, n - 1);
      EveryInterleaving(mutex, Served(n));
      AfterConcat(mutex, Served(n - 1), [Starts(n - 1), Settles(n - 1), Returns(n - 1)]);
      var before := After(mutex, Served(n - 1));
      ThreeSteps(before, n - 1);
      hide Step, After, InOrder, TailsFit;
      OneServed(before, n - 1);
    }
  }

  /** After every history all calls can still be served, in the order they were made, and then no entry is left. */
  lemma EveryCallIsServed(events: seq<Event>)
    ensures var mutex := After(Fresh(), events); var served := After(mutex, Served(|mutex.calls|));
      && |served.calls| == |mutex.calls| && served.tails == map[]
      && (forall i :: 0 <= i < |served.calls| ==> served.calls[i].phase == Returned)
  {
    EveryInterleaving(Fresh(), events);
    var mutex := After(Fresh(), events);
    ServingReturns(mutex, |mutex.calls|);
    hide After, Chained;
    var served := After(mutex, Served(|mutex.calls|));
    forall key ensures key !in served.tails {
    }
    assert served.tails == map[];
  }

  // ---------- The class ----------

  class Queue {
    var tails: map<Key, nat>
    var calls: seq<Call>

    ghost function Current(): Mutex
      reads this
    {
      Mutex(calls, tails)
    }

    constructor ()
      ensures Current() == Fresh()
    {
      tails, calls := map[], [];
    }

    /** `run` up to its wait: the call takes the tail's place and will run behind it. */
    method Run(key: Key) returns (call: nat)
      modifies this
      ensures Current() == Enter(old(Current()), key) && call == |old(calls)|
    {
      var previous := if key in tails then Some(tails[key]) else None;
      call := |calls|;
      calls := calls + [Call(key, previous, Waiting)];
      tails := tails[key := call];
    }

    /** `run` after its function settled. */
    method Finally(call: nat)
      requires call < |calls| && calls[call].phase == Settled
      modifies this
      ensures Current() == Leave(old(Current()), call)
    {
      var key := calls[call].key;
      calls := calls[call := calls[call].(phase := Returned)];
      if key in tails && tails[key] == call {
        tails := tails - {key};
      }
    }
  }
}
