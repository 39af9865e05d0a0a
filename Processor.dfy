/**
 * The event-tree conversion: the body of a pattern frame is read as raw
 * events, and a stack machine turns each enter/exit pair into one call with
 * its start and end index and its nesting depth, keeping the largest depth
 * reached and the names of the functions seen.
 */
module Processor {
  import opened Events
  import opened Frames

  /** A trace line split on ':': its kind and its function name. */
  datatype RawEvent = RawEvent(kind: string, name: string)

  /** The split of an event's line. */
  function RawOf(e: Event): RawEvent
  {
    match e
    case Enter(n) => RawEvent("enter", n)
    case Exit(n) => RawEvent("exit", n)
  }

  /** One call: entered at startIndex, last body event at endIndex (unset while open), nesting depth from 1. */
  datatype EventObj = EventObj(functionName: string, startIndex: int, endIndex: Option<int>, depth: int)

  /** What getPatternProcessedData hands out. */
  datatype PatternData = PatternData(count: int, maxStackDepth: int, patternLength: int, processedEvents: seq<EventObj>)

  /** The state processRawEvents works on. */
  datatype Machine = Machine(functions: set<string>, maxStackDepth: int, eventStream: seq<EventObj>, processedEvents: seq<EventObj>)

  const Fresh := Machine({}, 0, [], [])

  // ---------------------------------------------------------------------
  // Raw events (js/Processor.js:28-37)
  // ---------------------------------------------------------------------

  /** Every line the loop of createRawEvents reads lies inside the data. */
  predicate Readable(data: seq<Event>, frame: Frame)
  {
    frame.start < frame.end ==> -1 <= frame.start && frame.end < |data|
  }

  function RawsOf(data: seq<Event>, frame: Frame): seq<RawEvent>
    requires Readable(data, frame)
  {
    if frame.start < frame.end then
      seq(frame.end - frame.start, k requires 0 <= k < frame.end - frame.start => RawOf(data[frame.start + 1 + k]))
    else []
  }

  // ---------------------------------------------------------------------
  // The stack machine (js/Processor.js:60-93)
  // ---------------------------------------------------------------------

  /** The kinds the switch of processRawEvents acts on. */
  predicate IsEnter(r: RawEvent) { r.kind == "enter" }
  predicate IsExit(r: RawEvent) { r.kind == "exit" }

  lemma KindsDistinct(r: RawEvent)
    ensures !(IsEnter(r) && IsExit(r))
  {
    if IsEnter(r) {
      assert r.kind[1] == 'n';
    }
  }

  /** Change of stack height caused by one raw event; an unknown kind changes nothing. */
  function RawDelta(r: RawEvent): int
  {
    if IsEnter(r) then 1 else if IsExit(r) then -1 else 0
  }

  /** Net stack height gained over the first n raw events. */
  function Opened(raws: seq<RawEvent>, n: nat): int
    requires n <= |raws|
  {
    if n == 0 then 0 else Opened(raws, n - 1) + RawDelta(raws[n - 1])
  }

  /** Starting at height d, no exit among the first n finds the stack empty (popping it would fail). */
  predicate NoStrayExit(d: int, raws: seq<RawEvent>, n: nat)
    requires n <= |raws|
  {
    n == 0 || (NoStrayExit(d, raws, n - 1) && (IsExit(raws[n - 1]) ==> d + Opened(raws, n - 1) > 0))
  }

  /** One pass of the loop of processRawEvents, on the event at index i. */
  function Step(m: Machine, i: int, r: RawEvent): Machine
    requires IsExit(r) ==> |m.eventStream| > 0
  {
    if IsEnter(r) then Push(m, i, r.name)
    else if IsExit(r) then Pop(m, i, r.name)
    else Machine(m.functions + {r.name}, if m.maxStackDepth < |m.eventStream| then |m.eventStream| else m.maxStackDepth,
                 m.eventStream, m.processedEvents)
  }

  /** An enter: a new open call one deeper than the stack. */
  function Push(m: Machine, i: int, name: string): Machine
  {
    var stack := m.eventStream + [EventObj(name, i, None, |m.eventStream| + 1)];
    Machine(m.functions + {name}, if m.maxStackDepth < |stack| then |stack| else m.maxStackDepth, stack, m.processedEvents)
  }

  /** An exit: the innermost open call ends just before i and is finished. */
  function Pop(m: Machine, i: int, name: string): Machine
    requires |m.eventStream| > 0
  {
    var stack := m.eventStream[..|m.eventStream| - 1];
    var done := m.processedEvents + [m.eventStream[|m.eventStream| - 1].(endIndex := Some(i - 1))];
    Machine(m.functions + {name}, if m.maxStackDepth < |stack| then |stack| else m.maxStackDepth, stack, done)
  }

  /** The machine after the first n raw events; the stack is as high as the events opened. */
  function Run(m: Machine, raws: seq<RawEvent>, n: nat): (r: Machine)
    requires n <= |raws| && NoStrayExit(|m.eventStream|, raws, n)
    ensures |r.eventStream| == |m.eventStream| + Opened(raws, n)
  {
    if n == 0 then m else Step(Run(m, raws, n - 1), n - 1, raws[n - 1])
  }

  lemma RunStep(m: Machine, raws: seq<RawEvent>, i: nat)
    requires i < |raws| && NoStrayExit(|m.eventStream|, raws, i + 1)
    ensures IsExit(raws[i]) ==> |Run(m, raws, i).eventStream| > 0
    ensures Run(m, raws, i + 1) == Step(Run(m, raws, i), i, raws[i])
  {
  }

  lemma {:induction false} NoStrayExitPrefix(d: int, raws: seq<RawEvent>, n: nat, i: nat)
    requires i <= n <= |raws| && NoStrayExit(d, raws, n)
    ensures NoStrayExit(d, raws, i)
    decreases n
  {
    if i < n {
      NoStrayExitPrefix(d, raws, n - 1, i);
    }
  }

  class PatternProcessor {
    var count: int
    var functions: set<string>
    var maxStackDepth: int
    var patternLength: int
    var eventStream: seq<EventObj>
    var processedEvents: seq<EventObj>

    constructor ()
      ensures State() == Fresh && patternLength == 0 && count == 0
    {
      count := 0;
      functions := {};
      maxStackDepth := 0;
      patternLength := 0;
      eventStream := [];
      processedEvents := [];
    }

    function State(): Machine
      reads this
    {
      Machine(functions, maxStackDepth, eventStream, processedEvents)
    }

    function Data(): PatternData
      reads this
    {
      PatternData(count, maxStackDepth, patternLength, processedEvents)
    }

    /** processRawEvents: run the machine over the raw events, recording their number. */
    method ProcessRawEvents(rawEvents: seq<RawEvent>)
      requires NoStrayExit(|eventStream|, rawEvents, |rawEvents|)
      modifies this
      ensures State() == Run(old(State()), rawEvents, |rawEvents|)
      ensures patternLength == |rawEvents| && count == old(count)
    {
      ghost var m0 := State();
      patternLength := |rawEvents|;
      var i := 0;
      while i < |rawEvents|
        invariant 0 <= i <= |rawEvents|
        invariant NoStrayExit(|m0.eventStream|, rawEvents, i)
        invariant State() == Run(m0, rawEvents, i)
        invariant patternLength == |rawEvents| && count == old(count)
        decreases |rawEvents| - i
      {
        NoStrayExitPrefix(|m0.eventStream|, rawEvents, |rawEvents|, i + 1);
        RunStep(m0, rawEvents, i);
        ProcessRawEvent(rawEvents[i], i);
        i := i + 1;
      }
    }

    /** The body of the loop of processRawEvents, on the event at index i. */
    method ProcessRawEvent(rawEvent: RawEvent, i: int)
      requires IsExit(rawEvent) ==> |eventStream| > 0
      modifies this
      ensures State() == Step(old(State()), i, rawEvent)
      ensures patternLength == old(patternLength) && count == old(count)
    {
      functions := functions + {rawEvent.name};
      if IsEnter(rawEvent) {
        var curEvent := EventObj(rawEvent.name, i, None, |eventStream| + 1);
        eventStream := eventStream + [curEvent];
      } else if IsExit(rawEvent) {
        var curEvent := eventStream[|eventStream| - 1];
        eventStream := eventStream[..|eventStream| - 1];
        curEvent := curEvent.(endIndex := Some(i - 1));
        processedEvents := processedEvents + [curEvent];
      }
      if maxStackDepth < |eventStream| {
        maxStackDepth := |eventStream|;
      }
    }
  }

  class Processor {
    var functions: set<string>
    var processors: seq<PatternProcessor>

    constructor ()
      ensures functions == {} && processors == []
    {
      functions := {};
      processors := [];
    }

    /** createRawEvents: the split lines of the frame's body, one per body event. */
    method CreateRawEvents(data: seq<Event>, frame: Frame) returns (rawEvents: seq<RawEvent>)
      requires Readable(data, frame)
      ensures |rawEvents| == Max0(frame.end - frame.start)
      ensures forall k :: 0 <= k < |rawEvents| ==> rawEvents[k] == RawOf(data[frame.start + 1 + k])
      ensures rawEvents == RawsOf(data, frame)
    {
      rawEvents := [];
      var i := frame.start + 1;
      while i <= frame.end
        invariant frame.start + 1 <= i <= Max(frame.start + 1, frame.end + 1)
        invariant |rawEvents| == i - frame.start - 1
        invariant forall k :: 0 <= k < |rawEvents| ==> rawEvents[k] == RawOf(data[frame.start + 1 + k])
        decreases frame.end - i
      {
        rawEvents := rawEvents + [RawOf(data[i])];
        i := i + 1;
      }
    }

    /** processPatternData: a new processor over the frame's body, its count and function names taken over. */
    method ProcessPatternData(data: seq<Event>, frame: Frame)
      requires Readable(data, frame) && NoStrayExit(0, RawsOf(data, frame), |RawsOf(data, frame)|)
      modifies this
      ensures |processors| == |old(processors)| + 1 && processors[..|old(processors)|] == old(processors)
      ensures fresh(processors[|old(processors)|])
      ensures var raws := RawsOf(data, frame);
              var m := Run(Fresh, raws, |raws|);
              && processors[|old(processors)|].Data() == PatternData(frame.count, m.maxStackDepth, |raws|, m.processedEvents)
              && functions == old(functions) + m.functions
    {
      var processor := new PatternProcessor();
      var rawEvents := CreateRawEvents(data, frame);
      processor.ProcessRawEvents(rawEvents);
      processor.count := frame.count;
      processors := processors + [processor];
      functions := functions + processor.functions;
    }

    /** getPatterns: every processor's data, in the order they were added. */
    method GetPatterns() returns (patterns: seq<PatternData>)
      ensures |patterns| == |processors|
      ensures forall i :: 0 <= i < |processors| ==> patterns[i] == processors[i].Data()
    {
      patterns := [];
      var i := 0;
      while i < |processors|
        invariant 0 <= i <= |processors|
        invariant |patterns| == i
        invariant forall k :: 0 <= k < i ==> patterns[k] == processors[k].Data()
        decreases |processors| - i
      {
        patterns := patterns + [processors[i].Data()];
        i := i + 1;
      }
    }
  }

  function Max(x: int, y: int): int { if x < y then y else x }

  function Max0(x: int): nat { if x < 0 then 0 else x }
}
