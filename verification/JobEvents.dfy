/**
 Job records, their registry and the webhook events their writes stand for (`src/storage/registry.ts`,
 `jobEventTypes` in `src/services/webhook-dispatches.ts`).

 Writes to one id are serialized, so a history of the registry is a sequence of writes. An id is created once.
 */
module JobEvents {
  import opened JobStatus
  import opened Wrappers

  type Id = string

  datatype Group = RunGroup | BuildGroup

  datatype JobEvent = Created | Revived | Finished(status: Status)

  /** What the events depend on, next to everything else a record holds. */
  datatype Job = Job(status: Status, resurrectCount: nat)

  /** What one write means: creation, a resurrection, reaching a terminal status, or nothing. */
  function EventsOf(previous: Option<Job>, next: Job, group: Group): (events: seq<JobEvent>) {
    var start :=
      if previous.None? then [Created]
      else if group == RunGroup && IsTerminal(previous.value.status) && !IsTerminal(next.status) then [Revived]
      else [];
    if IsTerminal(next.status) && (previous.None? || previous.value.status != next.status)
    then start + [Finished(next.status)]
    else start
  }

  method JobEventTypes(previous: Option<Job>, next: Job, group: Group) returns (events: seq<JobEvent>)
    ensures events == EventsOf(previous, next, group)
  {
    events := [];
    if previous.None? {
      events := events + [Created];
    } else if group == RunGroup && IsTerminal(previous.value.status) && !IsTerminal(next.status) {
      events := events + [Revived];
    }
    if IsTerminal(next.status) && (previous.None? || previous.value.status != next.status) {
      events := events + [Finished(next.status)];
    }
  }

  // ---------- Writes ----------

  /**
   Creation, a status write through the gate, a write of other fields, a resurrection by a caller who saw
   the status `seen`, and a deletion, which notifies nobody.
   */
  datatype Write =
    | Create
    | Guarded(next: Status)
    | Patch
    | Resurrect(seen: Status)
    | Delete

  /** The record after the write, as its mutator leaves it. */
  function Mutate(current: Option<Job>, write: Write, group: Group): Option<Job> {
    match (current, write)
    case (_, Create) => Some(Job(Ready, 0))
    case (None, _) => None
    case (_, Delete) => None
    case (Some(job), Guarded(next)) => Some(job.(status := Transition(job.status, next)))
    case (Some(job), Patch) => Some(job)
    case (Some(job), Resurrect(seen)) =>
      if group == RunGroup && IsTerminal(seen) && job.status == seen
      then Some(Job(Ready, job.resurrectCount + 1)) else Some(job)
  }

  /** The store, the events queued so far, and the ids that were ever given out. */
  datatype State = State(group: Group, store: map<Id, Job>, queue: seq<(Id, JobEvent)>, used: set<Id>)

  function Lookup(store: map<Id, Job>, id: Id): Option<Job> {
    if id in store then Some(store[id]) else None
  }

  function Stored(store: map<Id, Job>, id: Id, job: Option<Job>): map<Id, Job> {
    if job.Some? then store[id := job.value] else store - {id}
  }

  function Tagged(id: Id, events: seq<JobEvent>): (r: seq<(Id, JobEvent)>)
    ensures |r| == |events| && forall i :: 0 <= i < |r| ==> r[i] == (id, events[i])
  {
    seq(|events|, i requires 0 <= i < |events| => (id, events[i]))
  }

  function Apply(state: State, id: Id, write: Write): State {
    var current := Lookup(state.store, id);
    var next := Mutate(current, write, state.group);
    var events := if next.Some? then EventsOf(current, next.value, state.group) else [];
    state.(store := Stored(state.store, id, next), queue := state.queue + Tagged(id, events), used := state.used + {id})
  }

  /** Generated ids are never used again. */
  predicate Allowed(state: State, id: Id, write: Write) {
    write.Create? ==> id !in state.used
  }

  function After(state: State, writes: seq<(Id, Write)>): State
    decreases |writes|
  {
    if writes == [] then state
    else if !Allowed(state, writes[0].0, writes[0].1) then After(state, writes[1..])
    else After(Apply(state, writes[0].0, writes[0].1), writes[1..])
  }

  function Empty(group: Group): State {
    State(group, map[], [], {})
  }

  // ---------- The trace of one job ----------

  function TraceOf(queue: seq<(Id, JobEvent)>, id: Id): seq<JobEvent> {
    if queue == [] then []
    else if queue[0].0 == id then [queue[0].1] + TraceOf(queue[1..], id)
    else TraceOf(queue[1..], id)
  }

  lemma Assoc(a: seq<JobEvent>, b: seq<JobEvent>, c: seq<JobEvent>)
    ensures (a + b) + c == a + (b + c)
  {
  }

  lemma {:induction false} TraceConcat(a: seq<(Id, JobEvent)>, b: seq<(Id, JobEvent)>, id: Id)
    ensures TraceOf(a + b, id) == TraceOf(a, id) + TraceOf(b, id)
  {
    if a == [] {
      assert a + b == b;
      assert TraceOf(a, id) + TraceOf(b, id) == TraceOf(b, id);
    } else {
      assert (a + b)[1..] == a[1..] + b;
      TraceConcat(a[1..], b, id);
      Assoc([a[0].1], TraceOf(a[1..], id), TraceOf(b, id));
    }
  }

  lemma {:induction false} TraceOfTagged(tag: Id, events: seq<JobEvent>, id: Id)
    ensures TraceOf(Tagged(tag, events), id) == if tag == id then events else []
  {
    if events != [] {
      assert Tagged(tag, events)[1..] == Tagged(tag, events[1..]);
      TraceOfTagged(tag, events[1..], id);
    }
  }

  /** `CREATED (TERMINAL RESURRECTED)* TERMINAL?` */
  predicate InLanguage(trace: seq<JobEvent>) {
    && trace != [] && trace[0] == Created
    && forall i :: 1 <= i < |trace| ==>
         if i % 2 == 1 then trace[i].Finished? && IsTerminal(trace[i].status) else trace[i] == Revived
  }

  function Revivals(trace: seq<JobEvent>): nat {
    if trace == [] then 0
    else Revivals(trace[..|trace| - 1]) + if trace[|trace| - 1] == Revived then 1 else 0
  }

  /** A job's trace is in the language and ends where its record stands. */
  predicate Agrees(trace: seq<JobEvent>, job: Job, group: Group) {
    && InLanguage(trace)
    && Revivals(trace) == job.resurrectCount
    && (if IsTerminal(job.status) then trace[|trace| - 1] == Finished(job.status)
        else !trace[|trace| - 1].Finished?)
    && (group == BuildGroup ==> job.resurrectCount == 0 && |trace| <= 2)
  }

  predicate TraceFits(state: State, id: Id) {
    var trace := TraceOf(state.queue, id);
    && (id !in state.used ==> trace == [] && id !in state.store)
    && (trace != [] ==> InLanguage(trace) && (state.group == BuildGroup ==> |trace| <= 2))
    && (id in state.store ==> Agrees(trace, state.store[id], state.group))
  }

  ghost predicate Inv(state: State) {
    forall id :: TraceFits(state, id)
  }

  lemma NewTraceAgrees(group: Group)
    ensures Agrees([Created], Job(Ready, 0), group)
  {
    assert Revivals([Created]) == Revivals([Created][..0]);
  }

  lemma OneMore(trace: seq<JobEvent>, event: JobEvent)
    ensures Revivals(trace + [event]) == Revivals(trace) + if event == Revived then 1 else 0
  {
    assert (trace + [event])[..|trace|] == trace;
  }

  /** One write of an existing record extends its trace by just what keeps the two in step. */
  lemma WriteAgrees(trace: seq<JobEvent>, job: Job, write: Write, group: Group)
    requires Agrees(trace, job, group) && !write.Create? && !write.Delete?
    ensures var next := Mutate(Some(job), write, group);
      next.Some? && Agrees(trace + EventsOf(Some(job), next.value, group), next.value, group)
  {
    hide Revivals;
    var next := Mutate(Some(job), write, group).value;
    if next.status == job.status {
      assert trace + EventsOf(Some(job), next, group) == trace;
    } else if IsTerminal(next.status) {
      assert EventsOf(Some(job), next, group) == [Finished(next.status)];
      OneMore(trace, Finished(next.status));
      FinishingExtends(trace, next.status);
    } else {
      if IsTerminal(job.status) {
        OneMore(trace, Revived);
        RevivingExtends(trace);
      } else {
        assert trace + EventsOf(Some(job), next, group) == trace;
      }
    }
  }

  lemma FinishingExtends(trace: seq<JobEvent>, status: Status)
    requires InLanguage(trace) && !trace[|trace| - 1].Finished? && IsTerminal(status)
    ensures InLanguage(trace + [Finished(status)]) && |trace| % 2 == 1
    ensures Revivals(trace) == 0 ==> |trace| == 1
  {
    RevivalsOf(trace);
  }

  lemma RevivingExtends(trace: seq<JobEvent>)
    requires InLanguage(trace) && trace[|trace| - 1].Finished?
    ensures InLanguage(trace + [Revived])
  {
  }

  lemma {:induction false} RevivalsOf(trace: seq<JobEvent>)
    requires InLanguage(trace)
    ensures Revivals(trace) == (|trace| - 1) / 2
  {
    if |trace| == 1 {
      assert trace[..0] == [];
    } else {
      RevivalsOf(trace[..|trace| - 1]);
    }
  }

  // ---------- Every history ----------

  /** A write of one id leaves every other id's trace and record alone. */
  lemma OthersUntouched(state: State, id: Id, write: Write, other: Id)
    requires other != id
    ensures TraceOf(Apply(state, id, write).queue, other) == TraceOf(state.queue, other)
    ensures Lookup(Apply(state, id, write).store, other) == Lookup(state.store, other)
    ensures other in Apply(state, id, write).used <==> other in state.used
  {
    hide Mutate, EventsOf;
    var current := Lookup(state.store, id);
    var next := Mutate(current, write, state.group);
    var events := if next.Some? then EventsOf(current, next.value, state.group) else [];
    TraceConcat(state.queue, Tagged(id, events), other);
    TraceOfTagged(id, events, other);
    assert TraceOf(state.queue, other) + [] == TraceOf(state.queue, other);
  }

  lemma OwnTraceGrows(state: State, id: Id, events: seq<JobEvent>)
    ensures TraceOf(state.queue + Tagged(id, events), id) == TraceOf(state.queue, id) + events
  {
    TraceConcat(state.queue, Tagged(id, events), id);
    TraceOfTagged(id, events, id);
  }

  lemma OwnTraceFits(state: State, id: Id, write: Write)
    requires TraceFits(state, id) && Allowed(state, id, write)
    ensures TraceFits(Apply(state, id, write), id)
  {
    hide Agrees, TraceOf, InLanguage;
    var current := Lookup(state.store, id);
    var next := Mutate(current, write, state.group);
    var trace := TraceOf(state.queue, id);
    var events := if next.Some? then EventsOf(current, next.value, state.group) else [];
    OwnTraceGrows(state, id, events);
    if write.Create? {
      NewTraceAgrees(state.group);
      assert trace + events == [Created];
      AgreeingTraces([Created], Job(Ready, 0), state.group);
    } else if next.Some? {
      WriteAgrees(trace, current.value, write, state.group);
      AgreeingTraces(trace + events, next.value, state.group);
    } else {
      assert trace + events == trace;
    }
  }

  lemma AgreeingTraces(trace: seq<JobEvent>, job: Job, group: Group)
    requires Agrees(trace, job, group)
    ensures InLanguage(trace) && (group == BuildGroup ==> |trace| <= 2)
  {
  }

  lemma ApplyKeeps(state: State, id: Id, write: Write)
    requires Inv(state) && Allowed(state, id, write)
    ensures Inv(Apply(state, id, write))
  {
    forall other ensures TraceFits(Apply(state, id, write), other) {
      hide Apply, Agrees, TraceOf, InLanguage, Lookup;
      assert TraceFits(state, other);
      if other == id {
        OwnTraceFits(state, id, write);
      } else {
        OthersUntouched(state, id, write, other);
        SameFit(state, Apply(state, id, write), other);
      }
    }
  }

  lemma SameFit(state: State, next: State, id: Id)
    requires TraceFits(state, id) && next.group == state.group
    requires TraceOf(next.queue, id) == TraceOf(state.queue, id) && Lookup(next.store, id) == Lookup(state.store, id)
    requires id in next.used <==> id in state.used
    ensures TraceFits(next, id)
  {
    hide Agrees, TraceOf, InLanguage;
  }

  lemma {:induction false} EveryHistoryFits(state: State, writes: seq<(Id, Write)>)
    requires Inv(state)
    ensures Inv(After(state, writes)) && After(state, writes).group == state.group
    decreases |writes|
  {
    hide Inv, Apply, Allowed;
    if writes != [] {
      var id, write := writes[0].0, writes[0].1;
      if Allowed(state, id, write) {
        ApplyKeeps(state, id, write);
        SameGroup(state, id, write);
        EveryHistoryFits(Apply(state, id, write), writes[1..]);
      } else {
        EveryHistoryFits(state, writes[1..]);
      }
    }
  }

  lemma SameGroup(state: State, id: Id, write: Write)
    ensures Apply(state, id, write).group == state.group
  {
  }

  /**
   For every history of writes to any number of jobs, each job's webhook events form
   `CREATED (TERMINAL RESURRECTED)* TERMINAL?`; a stored job has one `RESURRECTED` event a resurrection, and
   its events end with its terminal status just when it has one. A build is never resurrected.
   */
  lemma EventsFormTheLanguage(group: Group, writes: seq<(Id, Write)>, id: Id)
    ensures var state := After(Empty(group), writes); var trace := TraceOf(state.queue, id);
      && (trace != [] ==> InLanguage(trace))
      && (group == BuildGroup ==> |trace| <= 2)
      && (id in state.store ==>
            && trace != [] && Revivals(trace) == state.store[id].resurrectCount
            && (if IsTerminal(state.store[id].status) then trace[|trace| - 1] == Finished(state.store[id].status)
                else !trace[|trace| - 1].Finished?))
  {
    EveryHistoryFits(Empty(group), writes);
    assert TraceFits(After(Empty(group), writes), id);
  }

  /** What a write that is accepted makes of a stored job, and the one event it is announced by, if any. */
  predicate Lands(before: Job, write: Write, group: Group, after: Job, events: seq<JobEvent>) {
    match write
    case Guarded(next) =>
      if next !in AllowedNext(before.status) then after == before && events == []
      else after == before.(status := next) && events == if IsTerminal(next) then [Finished(next)] else []
    case Resurrect(seen) =>
      if group == RunGroup && IsTerminal(before.status) && seen == before.status
      then after == Job(Ready, before.resurrectCount + 1) && events == [Revived]
      else after == before && events == []
    case _ => after == before && events == []
  }

  /**
   In every history a creation is stored and announced, a deletion goes unannounced, a write of an unknown job does
   nothing, and any other write lands: by the gate, or by a resurrection that saw the terminal status it found.
   */
  lemma WritesExactly(group: Group, writes: seq<(Id, Write)>, id: Id, write: Write)
    requires Allowed(After(Empty(group), writes), id, write)
    ensures var state := After(Empty(group), writes); var next := Apply(state, id, write);
      var before, after := Lookup(state.store, id), Lookup(next.store, id);
      exists events ::
        && TraceOf(next.queue, id) == TraceOf(state.queue, id) + events
        && (if write.Create? then after == Some(Job(Ready, 0)) && events == [Created]
            else if write.Delete? || before.None? then after.None? && events == []
            else after.Some? && Lands(before.value, write, group, after.value, events))
  {
    EveryHistoryFits(Empty(group), writes);
    var state := After(Empty(group), writes);
    assert TraceFits(state, id);
    var before := Lookup(state.store, id);
    var next := Mutate(before, write, group);
    var events := if next.Some? then EventsOf(before, next.value, group) else [];
    OwnTraceGrows(state, id, events);
    assert write.Guarded? && before.Some? && write.next in AllowedNext(before.value.status) ==>
      !IsTerminal(before.value.status);
    hide After, TraceOf, InLanguage, Agrees;
  }

  // ---------- The registry ----------

  class Registry {
    const group: Group
    var store: map<Id, Job>
    var queue: seq<(Id, JobEvent)>
    ghost var used: set<Id>

    ghost function Current(): State
      reads this
    {
      State(group, store, queue, used)
    }

    constructor (group: Group)
      ensures Current() == Empty(group)
    {
      this.group, store, queue, used := group, map[], [], {};
    }

    /** The dispatcher's listener: a deletion is no event, anything else is what its write means. */
    method Notify(id: Id, previous: Option<Job>, next: Option<Job>)
      modifies `queue
      ensures queue == old(queue) + Tagged(id, if next.Some? then EventsOf(previous, next.value, group) else [])
    {
      if next.None? {
        return;
      }
      var events := JobEventTypes(previous, next.value, group);
      var i := 0;
      while i < |events|
        invariant 0 <= i <= |events|
        invariant queue == old(queue) + Tagged(id, events[..i])
      {
        queue := queue + [(id, events[i])];
        i := i + 1;
      }
      assert events[..i] == events;
    }

    method Set(id: Id)
      requires id !in used
      modifies this
      ensures Current() == Apply(old(Current()), id, Create)
    {
      var previous := Lookup(store, id);
      store := store[id := Job(Ready, 0)];
      used := used + {id};
      Notify(id, previous, Some(Job(Ready, 0)));
    }

    /** Read, mutate, write, notify; a mutator that answers nothing deletes the record. */
    method Update(id: Id, write: Write) returns (next: Option<Job>)
      requires !write.Create? && !write.Delete?
      modifies this
      ensures Current() == Apply(old(Current()), id, write)
      ensures next == Lookup(store, id)
    {
      var current := Lookup(store, id);
      next := Mutate(current, write, group);
      store := Stored(store, id, next);
      used := used + {id};
      Notify(id, current, next);
    }
  }
}
