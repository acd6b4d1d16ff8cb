/**
 One job's live log: stamped lines buffered in memory and flushed into the persisted record
 (`src/services/logs.ts`).

 A timestamp is one token; the text around it keeps its characters. Flushes of one id run behind a keyed
 mutex: one at a time, in the order they were called. That gate is the mutex's own (`TheMutexIsTheGate`).
 */
module LogBuffer {
  import KeyedMutex
  import opened Wrappers

  datatype Token = Stamp | Char(value: char)

  const NEWLINE := '\n'

  // ---------- Stamping ----------

  /** One stamp in front of the first character of every line. */
  function Stamped(text: string, atLineStart: bool): seq<Token> {
    if text == "" then []
    else if atLineStart then [Stamp, Char(text[0])] + Stamped(text[1..], text[0] == NEWLINE)
    else [Char(text[0])] + Stamped(text[1..], text[0] == NEWLINE)
  }

  function LineStartAfter(text: string, atLineStart: bool): bool {
    if text == "" then atLineStart else text[|text| - 1] == NEWLINE
  }

  /** Reads stamped text back; `None` where a stamp is missing, doubled or in the middle of a line. */
  function Unstamped(tokens: seq<Token>, atLineStart: bool): Option<string> {
    if tokens == [] then Some("")
    else if tokens[0].Stamp? then
      if !atLineStart || |tokens| < 2 || tokens[1].Stamp? then None
      else Then(tokens[1].value, Unstamped(tokens[2..], tokens[1].value == NEWLINE))
    else if atLineStart then None
    else Then(tokens[0].value, Unstamped(tokens[1..], tokens[0].value == NEWLINE))
  }

  function Then(first: char, rest: Option<string>): Option<string> {
    if rest.None? then None else Some([first] + rest.value)
  }

  lemma Assoc<T>(a: seq<T>, b: seq<T>, c: seq<T>)
    ensures (a + b) + c == a + (b + c)
  {
  }

  /** Stamps stand exactly at the line starts: reading back what was stamped gives the text. */
  lemma {:induction false} StampedReadsBack(text: string, atLineStart: bool)
    ensures Unstamped(Stamped(text, atLineStart), atLineStart) == Some(text)
  {
    if text != "" {
      var more := Stamped(text[1..], text[0] == NEWLINE);
      StampedReadsBack(text[1..], text[0] == NEWLINE);
      assert text == [text[0]] + text[1..];
      if atLineStart {
        assert ([Stamp, Char(text[0])] + more)[2..] == more;
      } else {
        assert ([Char(text[0])] + more)[1..] == more;
      }
    }
  }

  /** And nothing else reads back as that text. */
  lemma {:induction false} OnlyStampedReadsBack(tokens: seq<Token>, atLineStart: bool)
    requires Unstamped(tokens, atLineStart).Some?
    ensures tokens == Stamped(Unstamped(tokens, atLineStart).value, atLineStart)
    decreases |tokens|
  {
    if tokens != [] {
      var n := if atLineStart then 2 else 1;
      var first := tokens[n - 1].value;
      var rest := Unstamped(tokens[n..], first == NEWLINE).value;
      OnlyStampedReadsBack(tokens[n..], first == NEWLINE);
      assert tokens == tokens[..n] + tokens[n..];
      assert ([first] + rest)[1..] == rest;
      if atLineStart {
        assert tokens[..n] == [Stamp, Char(first)];
      } else {
        assert tokens[..n] == [Char(first)];
      }
    }
  }

  /** Where the text is cut into chunks makes no difference to where the stamps go. */
  lemma {:induction false} CutAnywhere(a: string, b: string, atLineStart: bool)
    ensures Stamped(a + b, atLineStart) == Stamped(a, atLineStart) + Stamped(b, LineStartAfter(a, atLineStart))
    ensures LineStartAfter(a + b, atLineStart) == LineStartAfter(b, LineStartAfter(a, atLineStart))
  {
    if a == "" {
      assert a + b == b;
      assert Stamped(a, atLineStart) + Stamped(b, atLineStart) == Stamped(b, atLineStart);
    } else {
      var here := a[0] == NEWLINE;
      assert (a + b)[1..] == a[1..] + b;
      CutAnywhere(a[1..], b, here);
      assert LineStartAfter(a[1..], here) == LineStartAfter(a, atLineStart);
      var first := if atLineStart then [Stamp, Char(a[0])] else [Char(a[0])];
      Assoc(first, Stamped(a[1..], here), Stamped(b, LineStartAfter(a, atLineStart)));
    }
  }

  function Chars(text: string): seq<Token> {
    if text == "" then [] else [Char(text[0])] + Chars(text[1..])
  }

  /** A line, or what there is of one. */
  lemma {:induction false} StampedLine(line: string, atLineStart: bool)
    requires line != "" && forall i :: 0 <= i < |line| - 1 ==> line[i] != NEWLINE
    ensures Stamped(line, atLineStart) == (if atLineStart then [Stamp] else []) + Chars(line)
  {
    if |line| > 1 {
      StampedLine(line[1..], false);
      assert [] + Chars(line[1..]) == Chars(line[1..]);
    } else {
      assert line[1..] == "";
    }
    if atLineStart {
      assert [Stamp, Char(line[0])] + Chars(line[1..]) == [Stamp] + ([Char(line[0])] + Chars(line[1..]));
    } else {
      assert [] + Chars(line) == Chars(line);
    }
  }

  /** The index of the first newline at or behind `from`, or -1. */
  method IndexOfNewline(chunk: string, from: nat) returns (at: int)
    requires from <= |chunk|
    ensures at == -1 || from <= at < |chunk|
    ensures at == -1 ==> forall i :: from <= i < |chunk| ==> chunk[i] != NEWLINE
    ensures at != -1 ==> chunk[at] == NEWLINE && forall i :: from <= i < at ==> chunk[i] != NEWLINE
  {
    at := from;
    while at < |chunk|
      invariant from <= at <= |chunk|
      invariant forall i :: from <= i < at ==> chunk[i] != NEWLINE
    {
      if chunk[at] == NEWLINE {
        return;
      }
      at := at + 1;
    }
    at := -1;
  }

  /** The buffered chunks, joined for one write. */
  function Joined(buffer: seq<seq<Token>>): seq<Token> {
    if buffer == [] then [] else Joined(buffer[..|buffer| - 1]) + buffer[|buffer| - 1]
  }

  class LiveLog {
    var buffer: seq<seq<Token>>
    var atLineStart: bool

    constructor ()
      ensures buffer == [] && atLineStart
    {
      buffer, atLineStart := [], true;
    }

    method StampLines(chunk: string) returns (out: seq<Token>)
      modifies `atLineStart
      ensures out == Stamped(chunk, old(atLineStart))
      ensures atLineStart == LineStartAfter(chunk, old(atLineStart))
    {
      out := [];
      var from := 0;
      while from < |chunk|
        invariant 0 <= from <= |chunk|
        invariant out == Stamped(chunk[..from], old(atLineStart))
        invariant atLineStart == LineStartAfter(chunk[..from], old(atLineStart))
      {
        ghost var before, started := out, atLineStart;
        if atLineStart {
          out := out + [Stamp];
        }
        var newlineAt := IndexOfNewline(chunk, from);
        var to := if newlineAt == -1 then |chunk| else newlineAt + 1;
        out := out + Chars(chunk[from..to]);
        atLineStart := newlineAt != -1;
        LineBehind(chunk, from, to, old(atLineStart), before, started);
        from := to;
      }
      assert chunk[..from] == chunk;
    }

    /** A chunk that goes into the buffer, stamped where a line starts. */
    method AppendLog(chunk: string)
      modifies this
      ensures Joined(buffer) == Joined(old(buffer)) + Stamped(chunk, old(atLineStart))
      ensures atLineStart == LineStartAfter(chunk, old(atLineStart))
      ensures buffer == if chunk == "" then old(buffer) else old(buffer) + [Stamped(chunk, old(atLineStart))]
    {
      if chunk == "" {
        assert Joined(buffer) + [] == Joined(buffer);
        return;
      }
      var stamped := StampLines(chunk);
      assert (buffer + [stamped])[..|buffer|] == buffer;
      buffer := buffer + [stamped];
    }

    /** The first stretch of a flush: what is buffered is taken out before anything is awaited. */
    method Snapshot() returns (chunk: seq<Token>)
      modifies `buffer
      ensures chunk == Joined(old(buffer)) && buffer == []
    {
      chunk := [];
      var i := 0;
      while i < |buffer|
        invariant 0 <= i <= |buffer| && chunk == Joined(buffer[..i])
      {
        assert buffer[..i + 1][..i] == buffer[..i];
        chunk := chunk + buffer[i];
        i := i + 1;
      }
      assert buffer[..i] == buffer;
      buffer := [];
    }
  }

  lemma LineEnds(chunk: string, to: nat, start: bool)
    requires 0 < to <= |chunk|
    ensures LineStartAfter(chunk[..to], start) == (chunk[to - 1] == NEWLINE)
  {
  }

  lemma LineBehind(chunk: string, from: nat, to: nat, start: bool, before: seq<Token>, started: bool)
    requires from < to <= |chunk|
    requires before == Stamped(chunk[..from], start) && started == LineStartAfter(chunk[..from], start)
    requires forall i :: from <= i < to - 1 ==> chunk[i] != NEWLINE
    ensures (if started then before + [Stamp] else before) + Chars(chunk[from..to]) == Stamped(chunk[..to], start)
    ensures LineStartAfter(chunk[..to], start) == (chunk[to - 1] == NEWLINE)
  {
    hide Stamped, Chars;
    LineEnds(chunk, to, start);
    hide LineStartAfter;
    var line := chunk[from..to];
    assert chunk[..to] == chunk[..from] + line;
    CutAnywhere(chunk[..from], line, start);
    StampedLine(line, started);
    var stamp := if started then [Stamp] else [];
    Assoc(before, stamp, Chars(line));
    assert before + [] == before;
  }

  // ---------- Appends, flushes and readers of one id, interleaved ----------

  /** A flush waits its turn, holds the chunk it took, knows the record it is about to extend, or is done. */
  datatype Phase = Waiting | Snapped(chunk: seq<Token>) | Loaded(chunk: seq<Token>, existing: seq<Token>) | Settled

  /** `seen` is how many tokens had been appended when the flush was called. */
  datatype Flush = Flush(seen: nat, phase: Phase)

  /** `appended` is the text that was ever appended; the rest is what the service holds. */
  datatype Log = Log(
    appended: string,
    buffer: seq<seq<Token>>,
    atLineStart: bool,
    flushes: seq<Flush>,
    persisted: seq<Token>)

  function Everything(log: Log): seq<Token> {
    Stamped(log.appended, true)
  }

  datatype Event = Append(chunk: string) | FlushCalled | FlushStarts(n: nat) | Loads(n: nat) | Writes(n: nat)

  /** The mutex lets a flush start once all earlier ones have settled. */
  predicate CanStart(flushes: seq<Flush>, n: nat) {
    n < |flushes| && flushes[n].phase.Waiting? && forall i :: 0 <= i < n ==> flushes[i].phase.Settled?
  }

  function Moved(flushes: seq<Flush>, n: nat, phase: Phase): seq<Flush>
    requires n < |flushes|
  {
    flushes[n := flushes[n].(phase := phase)]
  }

  function Step(log: Log, event: Event): Log {
    match event
    case Append(chunk) =>
      if chunk == "" then log
      else log.(appended := log.appended + chunk,
                buffer := log.buffer + [Stamped(chunk, log.atLineStart)],
                atLineStart := LineStartAfter(chunk, log.atLineStart))
    case FlushCalled => log.(flushes := log.flushes + [Flush(|Everything(log)|, Waiting)])
    case FlushStarts(n) =>
      if !CanStart(log.flushes, n) then log
      else if log.buffer == [] then log.(flushes := Moved(log.flushes, n, Settled))
      else log.(flushes := Moved(log.flushes, n, Snapped(Joined(log.buffer))), buffer := [])
    case Loads(n) =>
      if n < |log.flushes| && log.flushes[n].phase.Snapped?
      then log.(flushes := Moved(log.flushes, n, Loaded(log.flushes[n].phase.chunk, log.persisted))) else log
    case Writes(n) =>
      if n < |log.flushes| && log.flushes[n].phase.Loaded?
      then log.(persisted := log.flushes[n].phase.existing + log.flushes[n].phase.chunk,
                flushes := Moved(log.flushes, n, Settled)) else log
  }

  function After(log: Log, events: seq<Event>): Log
    decreases |events|
  {
    if events == [] then log else After(Step(log, events[0]), events[1..])
  }

  function NewLog(): Log {
    Log("", [], true, [], [])
  }

  function ChunkOf(phase: Phase): seq<Token> {
    if phase.Snapped? || phase.Loaded? then phase.chunk else []
  }

  /** The chunk that has left the buffer and is not persisted yet: that of the first flush not settled. */
  function InFlight(flushes: seq<Flush>): seq<Token> {
    if flushes == [] then []
    else if flushes[0].phase.Settled? then InFlight(flushes[1..])
    else ChunkOf(flushes[0].phase)
  }

  /** One flush at a time, in order. */
  predicate Serial(flushes: seq<Flush>) {
    forall i, j :: 0 <= i < j < |flushes| && !flushes[j].phase.Waiting? ==> flushes[i].phase.Settled?
  }

  /** What a flush has done for its caller: what was appended before the call is persisted, or in its hands. */
  predicate Covers(flush: Flush, persisted: seq<Token>) {
    match flush.phase
    case Waiting => true
    case Snapped(chunk) => flush.seen <= |persisted| + |chunk|
    case Loaded(chunk, existing) => existing == persisted && flush.seen <= |persisted| + |chunk|
    case Settled => flush.seen <= |persisted|
  }

  predicate AllCovered(log: Log) {
    forall i :: 0 <= i < |log.flushes| ==>
      log.flushes[i].seen <= |Everything(log)| && Covers(log.flushes[i], log.persisted)
  }

  predicate NothingLost(log: Log) {
    && log.persisted + InFlight(log.flushes) + Joined(log.buffer) == Everything(log)
    && log.atLineStart == LineStartAfter(log.appended, true)
  }

  predicate Inv(log: Log) {
    Serial(log.flushes) && NothingLost(log) && AllCovered(log)
  }

  lemma {:induction false} InFlightIs(flushes: seq<Flush>, n: nat)
    requires n < |flushes| && forall i :: 0 <= i < n ==> flushes[i].phase.Settled?
    ensures !flushes[n].phase.Settled? ==> InFlight(flushes) == ChunkOf(flushes[n].phase)
    ensures flushes[n].phase.Settled? && (n + 1 < |flushes| ==> flushes[n + 1].phase.Waiting?)
      ==> InFlight(flushes) == []
  {
    if n > 0 {
      InFlightIs(flushes[1..], n - 1);
    } else if flushes[0].phase.Settled? {
      assert flushes[1..] == [] || flushes[1..][0] == flushes[1];
    }
  }

  lemma {:induction false} InFlightOfMore(flushes: seq<Flush>, flush: Flush)
    requires flush.phase.Waiting?
    ensures InFlight(flushes + [flush]) == InFlight(flushes)
  {
    if flushes != [] {
      assert (flushes + [flush])[1..] == flushes[1..] + [flush];
      InFlightOfMore(flushes[1..], flush);
    } else {
      assert flushes + [flush] == [flush];
    }
  }

  lemma AppendKeeps(log: Log, chunk: string)
    requires Inv(log)
    ensures Inv(Step(log, Append(chunk)))
  {
    if chunk != "" {
      hide Stamped, InFlight, Serial, Covers;
      var piece := Stamped(chunk, log.atLineStart);
      CutAnywhere(log.appended, chunk, true);
      assert (log.buffer + [piece])[..|log.buffer|] == log.buffer;
      Assoc(log.persisted + InFlight(log.flushes), Joined(log.buffer), piece);
    }
  }

  lemma CallKeeps(log: Log)
    requires Inv(log)
    ensures Inv(Step(log, FlushCalled))
  {
    hide Stamped, InFlight, LineStartAfter, Joined;
    InFlightOfMore(log.flushes, Flush(|Everything(log)|, Waiting));
  }

  lemma StartKeeps(log: Log, n: nat)
    requires Inv(log) && CanStart(log.flushes, n)
    ensures Inv(Step(log, FlushStarts(n)))
  {
    hide Stamped, InFlight, LineStartAfter;
    var next := Step(log, FlushStarts(n));
    InFlightIs(log.flushes, n);
    InFlightIs(next.flushes, n);
    assert log.persisted + [] == log.persisted;
    assert |Everything(log)| == |log.persisted| + |Joined(log.buffer)|;
  }

  lemma RunningIsFirst(flushes: seq<Flush>, n: nat)
    requires Serial(flushes) && n < |flushes| && (flushes[n].phase.Snapped? || flushes[n].phase.Loaded?)
    ensures forall i :: 0 <= i < n ==> flushes[i].phase.Settled?
    ensures forall i :: n < i < |flushes| ==> flushes[i].phase.Waiting?
  {
  }

  lemma LoadKeeps(log: Log, n: nat)
    requires Inv(log) && n < |log.flushes| && log.flushes[n].phase.Snapped?
    ensures Inv(Step(log, Loads(n)))
  {
    hide Stamped, InFlight, LineStartAfter, Joined;
    var next := Step(log, Loads(n));
    RunningIsFirst(log.flushes, n);
    InFlightIs(log.flushes, n);
    InFlightIs(next.flushes, n);
  }

  lemma WriteKeeps(log: Log, n: nat)
    requires Inv(log) && n < |log.flushes| && log.flushes[n].phase.Loaded?
    ensures Inv(Step(log, Writes(n)))
  {
    hide Stamped, InFlight, LineStartAfter, Joined;
    var next := Step(log, Writes(n));
    RunningIsFirst(log.flushes, n);
    InFlightIs(log.flushes, n);
    InFlightIs(next.flushes, n);
    assert Covers(log.flushes[n], log.persisted);
    assert next.persisted + [] == next.persisted;
  }

  lemma StepKeeps(log: Log, event: Event)
    requires Inv(log)
    ensures Inv(Step(log, event))
  {
    hide Inv;
    match event
    case Append(chunk) => AppendKeeps(log, chunk);
    case FlushCalled => CallKeeps(log);
    case FlushStarts(n) =>
      if CanStart(log.flushes, n) {
        StartKeeps(log, n);
      }
    case Loads(n) =>
      if n < |log.flushes| && log.flushes[n].phase.Snapped? {
        LoadKeeps(log, n);
      }
    case Writes(n) =>
      if n < |log.flushes| && log.flushes[n].phase.Loaded? {
        WriteKeeps(log, n);
      }
  }

  lemma {:induction false} EveryInterleaving(log: Log, events: seq<Event>)
    requires Inv(log)
    ensures Inv(After(log, events))
    decreases |events|
  {
    hide Inv, Step;
    if events != [] {
      StepKeeps(log, events[0]);
      EveryInterleaving(Step(log, events[0]), events[1..]);
    }
  }

  /** The text of all appends, in order: what the whole log is the stamped form of. */
  function AppendedBy(events: seq<Event>): string {
    if events == [] then ""
    else (if events[0].Append? then events[0].chunk else "") + AppendedBy(events[1..])
  }

  lemma {:induction false} AppendedInOrder(log: Log, events: seq<Event>)
    ensures After(log, events).appended == log.appended + AppendedBy(events)
    decreases |events|
  {
    if events != [] {
      hide Stamped, Joined, CanStart, LineStartAfter;
      var own := if events[0].Append? then events[0].chunk else "";
      assert Step(log, events[0]).appended == log.appended + own;
      AppendedInOrder(Step(log, events[0]), events[1..]);
      Assoc(log.appended, own, AppendedBy(events[1..]));
    } else {
      assert log.appended + "" == log.appended;
    }
  }

  /**
   For every interleaving of appends and flushes: what is persisted, in the hands of a flush and buffered is,
   in this order, everything that was appended, stamped as if it had come in one piece.
   */
  lemma NothingIsLost(events: seq<Event>)
    ensures var log := After(NewLog(), events);
      log.persisted + InFlight(log.flushes) + Joined(log.buffer) == Stamped(AppendedBy(events), true)
  {
    EveryInterleaving(NewLog(), events);
    AppendedInOrder(NewLog(), events);
    assert "" + AppendedBy(events) == AppendedBy(events);
  }

  lemma {:induction false} CallsKeepTheirPlace(log: Log, events: seq<Event>, n: nat)
    requires n < |log.flushes|
    ensures n < |After(log, events).flushes| && After(log, events).flushes[n].seen == log.flushes[n].seen
    decreases |events|
  {
    if events != [] {
      hide Stamped, Joined, CanStart, LineStartAfter;
      CallsKeepTheirPlace(Step(log, events[0]), events[1..], n);
    }
  }

  /**
   `getFullLog`: it flushes, and reads the record once that flush has settled. Whatever happened in between,
   what it reads starts with everything appended before its call and holds nothing but what was appended.
   */
  lemma FullLogHasEverythingBefore(before: seq<Event>, later: seq<Event>)
    ensures var called := Step(After(NewLog(), before), FlushCalled);
      var log := After(called, later);
      var n := |called.flushes| - 1;
      && n < |log.flushes|
      && (log.flushes[n].phase.Settled? ==>
            && Stamped(AppendedBy(before), true) <= log.persisted
            && log.persisted <= Stamped(AppendedBy(before) + AppendedBy(later), true))
  {
    hide Step, Stamped, Inv, InFlight;
    var start := After(NewLog(), before);
    var called := Step(start, FlushCalled);
    var log := After(called, later);
    var n := |called.flushes| - 1;
    EveryInterleaving(NewLog(), before) by {
      NewLogIsConsistent();
    }
    StepKeeps(start, FlushCalled);
    EveryInterleaving(called, later);
    AppendedInOrder(NewLog(), before);
    AppendedInOrder(called, later);
    CalledHere(start);
    assert "" + AppendedBy(before) == AppendedBy(before);
    CallsKeepTheirPlace(called, later, n);
    CutAnywhere(AppendedBy(before), AppendedBy(later), true);
    if log.flushes[n].phase.Settled? {
      SettledHasAll(log, n);
    }
  }

  lemma NewLogIsConsistent()
    ensures Inv(NewLog())
  {
  }

  lemma CalledHere(log: Log)
    ensures var called := Step(log, FlushCalled);
      && called.appended == log.appended && called.flushes != []
      && called.flushes[|called.flushes| - 1].seen == |Stamped(log.appended, true)|
  {
    hide Stamped;
  }

  lemma SettledHasAll(log: Log, n: nat)
    requires Inv(log) && n < |log.flushes| && log.flushes[n].phase.Settled?
    ensures log.flushes[n].seen <= |log.persisted| && log.persisted <= Stamped(log.appended, true)
  {
    hide Stamped, InFlight, Joined;
    assert Covers(log.flushes[n], log.persisted);
  }

  // ---------- Every flush lands ----------

  /** The first flushes, one after the other: each starts, loads and writes, as far as it has not yet. */
  function Landing(n: nat): seq<Event> {
    if n == 0 then [] else Landing(n - 1) + [FlushStarts(n - 1), Loads(n - 1), Writes(n - 1)]
  }

  lemma {:induction false} AfterConcat(log: Log, a: seq<Event>, b: seq<Event>)
    ensures After(log, a + b) == After(After(log, a), b)
    decreases |a|
  {
    hide Step;
    if a == [] {
      assert a + b == b;
    } else {
      assert (a + b)[1..] == a[1..] + b;
      AfterConcat(Step(log, a[0]), a[1..], b);
    }
  }

  lemma OneStep(log: Log, event: Event)
    ensures After(log, [event]) == Step(log, event)
  {
    hide Step;
    assert [event][1..] == [];
  }

  lemma ThreeSteps(log: Log, n: nat)
    ensures After(log, [FlushStarts(n), Loads(n), Writes(n)])
         == Step(Step(Step(log, FlushStarts(n)), Loads(n)), Writes(n))
  {
    hide Step, After;
    AfterConcat(log, [FlushStarts(n)], [Loads(n), Writes(n)]);
    AfterConcat(Step(log, FlushStarts(n)), [Loads(n)], [Writes(n)]);
    assert [FlushStarts(n)] + [Loads(n), Writes(n)] == [FlushStarts(n), Loads(n), Writes(n)];
    assert [Loads(n)] + [Writes(n)] == [Loads(n), Writes(n)];
    OneStep(log, FlushStarts(n));
    OneStep(Step(log, FlushStarts(n)), Loads(n));
    OneStep(Step(Step(log, FlushStarts(n)), Loads(n)), Writes(n));
  }

  /** All flushes before the `n`th have settled, and the log is otherwise the one it was. */
  predicate LandedUpTo(log: Log, start: Log, n: nat) {
    && log.appended == start.appended && |log.flushes| == |start.flushes|
    && (forall i :: 0 <= i < |log.flushes| ==>
          log.flushes[i].seen == start.flushes[i].seen && (i < n ==> log.flushes[i].phase.Settled?))
  }

  lemma OneLands(log: Log, start: Log, n: nat)
    requires LandedUpTo(log, start, n) && n < |log.flushes|
    ensures LandedUpTo(Step(Step(Step(log, FlushStarts(n)), Loads(n)), Writes(n)), start, n + 1)
  {
    hide Joined;
    var started := Step(log, FlushStarts(n));
    assert !started.flushes[n].phase.Waiting? && started.flushes == log.flushes[n := started.flushes[n]];
    var loaded := Step(started, Loads(n));
    assert loaded.flushes[n].phase.Loaded? || loaded.flushes[n].phase.Settled?;
    assert loaded.flushes == log.flushes[n := loaded.flushes[n]];
  }

  lemma {:induction false} LandingSettles(log: Log, n: nat)
    requires n <= |log.flushes|
    ensures LandedUpTo(After(log, Landing(n)), log, n)
  {
    if n > 0 {
      hide LandedUpTo, Step;
      LandingSettles(log, n - 1);
      AfterConcat(log, Landing(n - 1), [FlushStarts(n - 1), Loads(n - 1), Writes(n - 1)]);
      var before := After(log, Landing(n - 1));
      ThreeSteps(before, n - 1);
      SameCount(before, log, n - 1);
      OneLands(before, log, n - 1);
    }
  }

  lemma SameCount(log: Log, start: Log, n: nat)
    requires LandedUpTo(log, start, n)
    ensures |log.flushes| == |start.flushes|
  {
  }

  /**
   After every history one more flush call is enough: once it and those before it have run, the record is the whole
   log, stamped, and nothing is buffered any more.
   */
  lemma EveryFlushLands(events: seq<Event>)
    ensures var called := After(NewLog(), events + [FlushCalled]);
      var log := After(called, Landing(|called.flushes|));
      && (forall i :: 0 <= i < |log.flushes| ==> log.flushes[i].phase.Settled?)
      && log.persisted == Stamped(AppendedBy(events), true) && Joined(log.buffer) == []
  {
    var start := After(NewLog(), events);
    var called := After(NewLog(), events + [FlushCalled]);
    AfterConcat(NewLog(), events, [FlushCalled]);
    OneStep(start, FlushCalled);
    var n := |called.flushes|;
    var log := After(called, Landing(n));
    LandingSettles(called, n);
    assert Inv(log) by {
      NewLogIsConsistent();
      EveryInterleaving(NewLog(), events + [FlushCalled]);
      EveryInterleaving(called, Landing(n));
    }
    AppendedInOrder(NewLog(), events);
    assert "" + AppendedBy(events) == AppendedBy(events);
    CalledHere(start);
    hide Stamped, After, Inv;
    SettledHasAll(log, n - 1);
    NothingLeft(log);
  }

  lemma NothingLeft(log: Log)
    requires Inv(log) && |Stamped(log.appended, true)| <= |log.persisted|
    ensures log.persisted == Stamped(log.appended, true) && Joined(log.buffer) == []
  {
    hide Stamped, InFlight, Joined;
    var all := log.persisted + InFlight(log.flushes) + Joined(log.buffer);
    assert |all| == |log.persisted| + |InFlight(log.flushes)| + |Joined(log.buffer)|;
  }

  // ---------- Where the gate comes from ----------

  /** `places` are the flushes' calls on the mutex: all its calls of the log's key, in order, as far along. */
  ghost predicate Mirrors(flushes: seq<Flush>, calls: seq<KeyedMutex.Call>, key: string, places: seq<nat>) {
    && |places| == |flushes|
    && (forall i :: 0 <= i < |places| ==> places[i] < |calls| && calls[places[i]].key == key)
    && (forall i, j :: 0 <= i < j < |places| ==> places[i] < places[j])
    && (forall c :: 0 <= c < |calls| && calls[c].key == key ==> c in places)
    && (forall i :: 0 <= i < |places| ==>
          && (flushes[i].phase.Waiting? <==> calls[places[i]].phase.Waiting?)
          && (flushes[i].phase.Settled? <==> KeyedMutex.HasSettled(calls[places[i]])))
  }

  /** In every history of the mutex a flush may start exactly when the mutex starts its call. */
  lemma TheMutexIsTheGate(
      events: seq<KeyedMutex.Event>, flushes: seq<Flush>, key: string, places: seq<nat>, n: nat)
    requires n < |flushes|
    requires Mirrors(flushes, KeyedMutex.After(KeyedMutex.Fresh(), events).calls, key, places)
    ensures CanStart(flushes, n) <==> KeyedMutex.CanStart(KeyedMutex.After(KeyedMutex.Fresh(), events), places[n])
  {
    hide KeyedMutex.CanStart, KeyedMutex.After;
    var calls := KeyedMutex.After(KeyedMutex.Fresh(), events).calls;
    KeyedMutex.StartsExactlyInTurn(events, places[n]);
    if CanStart(flushes, n) {
      forall c | 0 <= c < places[n] && calls[c].key == key ensures KeyedMutex.HasSettled(calls[c]) {
        var i :| 0 <= i < |places| && places[i] == c;
        assert i < n;
      }
    } else if forall c :: 0 <= c < places[n] && calls[c].key == key ==> KeyedMutex.HasSettled(calls[c]) {
      forall i | 0 <= i < n ensures flushes[i].phase.Settled? {
        assert places[i] < places[n];
      }
    }
  }
}
