/** The queue between the upstream worker thread and the stream reader
    (`backend/src/proxy/upstream.cpp`), as atomic steps taken under one mutex. */
module StreamBridge {
  import opened Text

  /** The guarded fields, and two histories: bytes queued so far and bytes handed out so far. */
  datatype Bridge = Bridge(
    chunks: seq<string>,
    chunkOffset: nat,
    done: bool,
    workerError: bool,
    received: string,
    delivered: string)

  /** The return value and the bytes copied out. */
  datatype ReadResult = ReadResult(n: int, bytes: string)

  const EMPTY := Bridge([], 0, false, false, "", "")

  predicate WellFormed(b: Bridge) {
    && (b.chunks == [] ==> b.chunkOffset == 0)
    && (b.chunks != [] ==> b.chunkOffset <= |b.chunks[0]|)
    && (forall i | 0 <= i < |b.chunks| :: b.chunks[i] != "")
    && (b.workerError ==> b.done)
  }

  /** Bytes still to be handed out: the unread part of the front chunk, then the others. */
  function Queued(b: Bridge): string
    requires WellFormed(b)
  {
    if b.chunks == [] then "" else b.chunks[0][b.chunkOffset..] + Flatten(b.chunks[1..])
  }

  // ---------------------------------------------------------------------------------
  // Atomic steps
  // ---------------------------------------------------------------------------------

  function Enqueue(b: Bridge, data: string): Bridge {
    b.(chunks := b.chunks + [data], received := b.received + data)
  }

  function Received(b: Bridge, data: string): Bridge {
    if data == "" then b else Enqueue(b, data)
  }

  /** The worker's last step: a failure, or a success that may still carry the body. */
  function WorkerDone(b: Bridge, ok: bool, body: string): Bridge {
    (if !ok then b.(workerError := true)
     else if b.chunks == [] && body != "" then Enqueue(b, body)
     else b).(done := true)
  }

  function PopConsumed(b: Bridge): Bridge
    decreases |b.chunks|
  {
    if b.chunks != [] && b.chunkOffset >= |b.chunks[0]|
    then PopConsumed(b.(chunks := b.chunks[1..], chunkOffset := 0))
    else b
  }

  /** One pass of the read loop up to the wait; `None` means the reader goes to sleep. */
  function Attempt(b: Bridge, size: nat): (Bridge, Option<ReadResult>)
    requires WellFormed(b)
  {
    var p := PopConsumed(b);
    if p.chunks != [] then
      PopKeepsQueue(b);
      var available := |p.chunks[0]| - p.chunkOffset;
      var n := if size < available then size else available;
      var bytes := p.chunks[0][p.chunkOffset..p.chunkOffset + n];
      (p.(chunkOffset := p.chunkOffset + n, delivered := p.delivered + bytes), Some(ReadResult(n, bytes)))
    else if p.done then (p, Some(ReadResult(0, "")))
    else (p, None)
  }

  /** The reader after a wait, still holding the lock: the error test, then another pass. */
  function AfterWait(b: Bridge, size: nat): (Bridge, Option<ReadResult>)
    requires WellFormed(b)
  {
    if b.workerError && b.chunks == [] then (b, Some(ReadResult(-1, ""))) else Attempt(b, size)
  }

  lemma {:induction false} PopKeepsQueue(b: Bridge)
    requires WellFormed(b)
    ensures var p := PopConsumed(b);
            && WellFormed(p) && Queued(p) == Queued(b)
            && (p.chunks != [] ==> p.chunkOffset < |p.chunks[0]|)
            && p == b.(chunks := p.chunks, chunkOffset := p.chunkOffset)
    decreases |b.chunks|
  {
    if b.chunks != [] && b.chunkOffset >= |b.chunks[0]| {
      var next := b.(chunks := b.chunks[1..], chunkOffset := 0);
      assert b.chunks[0][b.chunkOffset..] == "";
      assert WellFormed(next);
      if next.chunks != [] {
        assert next.chunks[0][0..] == next.chunks[0];
      }
      assert Queued(next) == Flatten(next.chunks) == Queued(b);
      PopKeepsQueue(next);
    }
  }

  lemma EnqueueAppends(b: Bridge, data: string)
    requires WellFormed(b) && data != ""
    ensures var e := Enqueue(b, data);
            && WellFormed(e) && Queued(e) == Queued(b) + data
            && e == b.(chunks := e.chunks, received := b.received + data) && e.chunks != []
  {
    var e := Enqueue(b, data);
    if b.chunks == [] {
      assert e.chunks == [data];
      assert data[0..] == data;
    } else {
      assert e.chunks[1..] == b.chunks[1..] + [data];
      FlattenSnoc(b.chunks[1..], data);
    }
  }

  /** A pass moves a prefix of the queue to the reader and loses nothing; it is short only at the
      end of a chunk. */
  lemma AttemptMoves(b: Bridge, size: nat)
    requires WellFormed(b)
    ensures var (b', r) := Attempt(b, size);
            && WellFormed(b') && b'.done == b.done && b'.workerError == b.workerError
            && b'.received == b.received
            && (r.Some? ==> r.value.n == |r.value.bytes| <= size
                            && b'.delivered == b.delivered + r.value.bytes
                            && Queued(b) == r.value.bytes + Queued(b'))
            && (r.None? ==> b'.delivered == b.delivered && Queued(b) == Queued(b') == "" && b'.chunks == [])
            && (b.chunks == [] ==> b'.chunks == [])
            && (r.None? <==> Queued(b) == "" && !b.done)
            && (r.Some? && 0 < r.value.n < size ==> b'.chunks != [] && b'.chunkOffset == |b'.chunks[0]|)
            && (r.Some? && size > 0 ==> (r.value.n == 0 <==> Queued(b) == "" && b.done))
  {
    hide Queued, PopConsumed, Flatten;
    PopKeepsQueue(b);
    var p := PopConsumed(b);
    if p.chunks != [] {
      var available := |p.chunks[0]| - p.chunkOffset;
      FrontQueued(p);
      TakeFront(p, if size < available then size else available);
    } else {
      QueuedEmpty(p);
    }
    if b.chunks == [] {
      QueuedEmpty(b);
    }
  }

  lemma QueuedEmpty(b: Bridge)
    requires b.chunks == [] && WellFormed(b)
    ensures Queued(b) == "" && PopConsumed(b) == b
  {
  }

  lemma QueuedSame(a: Bridge, b: Bridge)
    requires WellFormed(a) && WellFormed(b) && a.chunks == b.chunks && a.chunkOffset == b.chunkOffset
    ensures Queued(a) == Queued(b)
  {
  }

  lemma TakeFront(p: Bridge, n: nat)
    requires WellFormed(p) && p.chunks != [] && p.chunkOffset < |p.chunks[0]|
    requires n <= |p.chunks[0]| - p.chunkOffset
    ensures var bytes := p.chunks[0][p.chunkOffset..p.chunkOffset + n];
            var p' := p.(chunkOffset := p.chunkOffset + n, delivered := p.delivered + bytes);
            WellFormed(p') && Queued(p) == bytes + Queued(p')
  {
    hide Flatten, Queued, WellFormed;
    var bytes := p.chunks[0][p.chunkOffset..p.chunkOffset + n];
    MovedOffset(p, p.chunkOffset, p.delivered);
    MovedOffset(p, p.chunkOffset + n, p.delivered + bytes);
    assert p.(chunkOffset := p.chunkOffset, delivered := p.delivered) == p;
    SplitFront(p.chunks[0], p.chunkOffset, n, Flatten(p.chunks[1..]));
  }

  lemma MovedOffset(p: Bridge, offset: nat, delivered: string)
    requires WellFormed(p) && p.chunks != [] && offset <= |p.chunks[0]|
    ensures var p' := p.(chunkOffset := offset, delivered := delivered);
            WellFormed(p') && Queued(p') == p.chunks[0][offset..] + Flatten(p.chunks[1..])
  {
    hide Flatten;
  }

  lemma FrontQueued(p: Bridge)
    requires WellFormed(p) && p.chunks != [] && p.chunkOffset < |p.chunks[0]|
    ensures Queued(p) != ""
  {
    hide Flatten;
    assert |p.chunks[0][p.chunkOffset..]| > 0;
  }

  lemma SplitFront(front: string, offset: nat, n: nat, rest: string)
    requires offset + n <= |front|
    ensures front[offset..] + rest == front[offset..offset + n] + (front[offset + n..] + rest)
  {
    assert front[offset..] == front[offset..offset + n] + front[offset + n..];
  }

  // ---------------------------------------------------------------------------------
  // The shared object
  // ---------------------------------------------------------------------------------

  class StreamBridgeState {
    var chunks: seq<string>
    var chunkOffset: nat
    var done: bool
    var workerError: bool
    ghost var received: string
    ghost var delivered: string

    ghost function View(): Bridge
      reads this
    {
      Bridge(chunks, chunkOffset, done, workerError, received, delivered)
    }

    constructor ()
      ensures View() == EMPTY
    {
      chunks, chunkOffset, done, workerError, received, delivered := [], 0, false, false, "", "";
    }

    /** `content_receiver` */
    method Receive(data: string)
      modifies this
      ensures View() == Received(old(View()), data)
    {
      if data == "" {
        return;
      }
      chunks := chunks + [data];
      received := received + data;
    }

    /** The worker after `client->send` returned. */
    method FinishWorker(ok: bool, body: string)
      modifies this
      ensures View() == WorkerDone(old(View()), ok, body)
    {
      if !ok {
        workerError := true;
      } else if chunks == [] && body != "" {
        chunks := chunks + [body];
        received := received + body;
      }
      done := true;
    }

    /** `stream_bridge_read` from taking the lock to returning or waiting. */
    method Read(size: nat) returns (result: Option<ReadResult>)
      requires WellFormed(View())
      modifies this
      ensures (View(), result) == Attempt(old(View()), size)
    {
      hide Queued;
      PopKeepsQueue(View());
      if chunks != [] {
        while chunks != [] && chunkOffset >= |chunks[0]|
          invariant WellFormed(View()) && PopConsumed(View()) == PopConsumed(old(View()))
          decreases |chunks|
        {
          chunks := chunks[1..];
          chunkOffset := 0;
        }
        if chunks != [] {
          var available := |chunks[0]| - chunkOffset;
          var n := if size < available then size else available;
          var out := chunks[0][chunkOffset..chunkOffset + n];
          chunkOffset := chunkOffset + n;
          delivered := delivered + out;
          return Some(ReadResult(n, out));
        }
      }
      if done {
        return Some(ReadResult(0, ""));
      }
      return None;
    }

    /** `stream_bridge_read` from waking up to returning or waiting again. */
    method Resume(size: nat) returns (result: Option<ReadResult>)
      requires WellFormed(View())
      modifies this
      ensures (View(), result) == AfterWait(old(View()), size)
    {
      if workerError && chunks == [] {
        return Some(ReadResult(-1, ""));
      }
      result := Read(size);
    }
  }

  // ---------------------------------------------------------------------------------
  // All interleavings
  // ---------------------------------------------------------------------------------

  datatype Reader = Idle | Waiting(size: nat)

  /** Bridge, reader position, and what has been observed: a -1 return, an end of stream
      (0 or -1 for a positive size), and whether the reader was asleep on an empty deque
      at the moment the worker failed. */
  datatype System = System(bridge: Bridge, reader: Reader, sawError: bool, sawEnd: bool, starvedAtFailure: bool)

  datatype Step =
    | Push(data: string)
    | Finish(ok: bool, body: string)
    | StartRead(size: nat)
    | Wake // notification or the 100 ms timeout

  const START := System(EMPTY, Idle, false, false, false)

  /** The worker stops after its last step; one reader is either between reads or asleep. */
  predicate Enabled(s: System, step: Step) {
    match step
    case Push(_) => !s.bridge.done
    case Finish(_, _) => !s.bridge.done
    case StartRead(_) => s.reader.Idle?
    case Wake => s.reader.Waiting?
  }

  function Settle(s: System, size: nat, outcome: (Bridge, Option<ReadResult>)): System {
    match outcome.1
    case None => s.(bridge := outcome.0, reader := Waiting(size))
    case Some(r) =>
      s.(bridge := outcome.0,
         reader := Idle,
         sawError := s.sawError || r.n < 0,
         sawEnd := s.sawEnd || (size > 0 && r.n <= 0))
  }

  function Take(s: System, step: Step): System
    requires WellFormed(s.bridge) && Enabled(s, step)
  {
    match step
    case Push(data) => s.(bridge := Received(s.bridge, data))
    case Finish(ok, body) =>
      s.(bridge := WorkerDone(s.bridge, ok, body),
         starvedAtFailure := !ok && s.reader.Waiting? && s.bridge.chunks == [])
    case StartRead(size) => Settle(s, size, Attempt(s.bridge, size))
    case Wake => Settle(s, s.reader.size, AfterWait(s.bridge, s.reader.size))
  }

  ghost predicate Inv(s: System) {
    && WellFormed(s.bridge)
    && s.bridge.delivered + Queued(s.bridge) == s.bridge.received
    && (s.sawEnd ==> s.bridge.done && Queued(s.bridge) == "")
    && (s.sawError ==> s.starvedAtFailure)
    && (s.starvedAtFailure ==>
          s.bridge.workerError && s.bridge.chunks == [] && (s.reader.Idle? <==> s.sawError))
    && (s.reader.Waiting? && s.bridge.workerError && s.bridge.chunks == [] ==> s.starvedAtFailure)
  }

  lemma WorkerKeepsInv(s: System, step: Step)
    requires Inv(s) && Enabled(s, step) && (step.Push? || step.Finish?)
    ensures Inv(Take(s, step))
  {
    hide Attempt, Queued, Enqueue, Flatten;
    var b := s.bridge;
    match step {
      case Push(data) =>
        if data != "" {
          EnqueueAppends(b, data);
          assert b.delivered + (Queued(b) + data) == b.delivered + Queued(b) + data;
        }
      case Finish(ok, body) =>
        if ok && b.chunks == [] && body != "" {
          EnqueueAppends(b, body);
          QueuedSame(Enqueue(b, body), Take(s, step).bridge);
          assert b.delivered + (Queued(b) + body) == b.delivered + Queued(b) + body;
        } else {
          QueuedSame(b, Take(s, step).bridge);
        }
    }
  }

  /** A pass by a reader, from whichever side it comes. */
  lemma PassKeepsInv(s: System, size: nat)
    requires Inv(s) && !s.starvedAtFailure && !s.sawError
    requires !(s.reader.Waiting? && s.bridge.workerError && s.bridge.chunks == [])
    ensures Inv(Settle(s, size, Attempt(s.bridge, size)))
  {
    hide Attempt, Queued;
    AttemptMoves(s.bridge, size);
    var (b', r) := Attempt(s.bridge, size);
    if r.Some? {
      assert s.bridge.delivered + (r.value.bytes + Queued(b')) == s.bridge.delivered + r.value.bytes + Queued(b');
    }
  }

  lemma StarvedPass(s: System, size: nat)
    requires Inv(s) && s.starvedAtFailure && s.reader.Idle?
    ensures Inv(Settle(s, size, Attempt(s.bridge, size)))
  {
    hide Queued;
    QueuedEmpty(s.bridge);
  }

  lemma StepKeepsInv(s: System, step: Step)
    requires Inv(s) && Enabled(s, step)
    ensures Inv(Take(s, step))
  {
    hide Attempt, Queued, Flatten, WorkerDone, Received, Settle;
    match step {
      case Push(_) => WorkerKeepsInv(s, step);
      case Finish(_, _) => WorkerKeepsInv(s, step);
      case StartRead(size) =>
        if s.starvedAtFailure {
          StarvedPass(s, size);
        } else {
          PassKeepsInv(s, size);
        }
      case Wake =>
        if s.bridge.workerError && s.bridge.chunks == [] {
          ErrorKeepsInv(s);
        } else {
          PassKeepsInv(s, s.reader.size);
        }
    }
  }

  lemma ErrorKeepsInv(s: System)
    requires Inv(s) && s.reader.Waiting? && s.bridge.workerError && s.bridge.chunks == []
    ensures Inv(Settle(s, s.reader.size, (s.bridge, Some(ReadResult(-1, "")))))
  {
    hide Queued;
    QueuedEmpty(s.bridge);
  }

  ghost predicate IsRun(s: System, steps: seq<Step>)
    requires WellFormed(s.bridge)
    decreases |steps|
  {
    steps == [] ||
    (Enabled(s, steps[0]) && WellFormed(Take(s, steps[0]).bridge) && IsRun(Take(s, steps[0]), steps[1..]))
  }

  ghost function Run(s: System, steps: seq<Step>): System
    requires WellFormed(s.bridge) && IsRun(s, steps)
    decreases |steps|
  {
    if steps == [] then s else Run(Take(s, steps[0]), steps[1..])
  }

  lemma {:induction false} RunKeepsInv(s: System, steps: seq<Step>)
    requires Inv(s) && IsRun(s, steps)
    ensures Inv(Run(s, steps))
    decreases |steps|
  {
    if steps != [] {
      StepKeepsInv(s, steps[0]);
      RunKeepsInv(Take(s, steps[0]), steps[1..]);
    }
  }

  // ----- what the worker sends -----

  /** The data of the pushes, in order. */
  function Pushed(steps: seq<Step>): string {
    if steps == [] then ""
    else (if steps[0].Push? then steps[0].data else "") + Pushed(steps[1..])
  }

  /** The body of a transfer that ended well. It is taken only if every byte so far has been
      handed out and the reader is asleep, or if there was no byte so far. */
  ghost function Body(s: System, steps: seq<Step>): string
    requires WellFormed(s.bridge) && IsRun(s, steps)
    decreases |steps|
  {
    if steps == [] then ""
    else
      match steps[0]
      case Finish(ok, body) => if ok && TakesBody(s) then body else ""
      case _ => Body(Take(s, steps[0]), steps[1..])
  }

  predicate TakesBody(s: System)
    requires WellFormed(s.bridge)
  {
    Queued(s.bridge) == "" && (s.reader.Waiting? || s.bridge.delivered == "")
  }

  /** Everything the worker sends in a run. */
  ghost function Sent(steps: seq<Step>): string
    requires IsRun(START, steps)
  {
    Pushed(steps) + Body(START, steps)
  }

  /** A reader between reads has left the front chunk in place, one asleep has none begun. */
  ghost predicate FrontKept(s: System) {
    && WellFormed(s.bridge)
    && (!s.bridge.done && s.reader.Idle? && s.bridge.delivered != "" ==> s.bridge.chunks != [])
    && (s.bridge.delivered == "" || s.reader.Waiting? ==> s.bridge.chunkOffset == 0)
  }

  lemma EmptyDeque(s: System)
    requires FrontKept(s) && !s.bridge.done
    ensures s.bridge.chunks == [] <==> TakesBody(s)
  {
    hide Queued;
    if s.bridge.chunks == [] {
      QueuedEmpty(s.bridge);
    } else if s.bridge.chunkOffset == 0 {
      FrontQueued(s.bridge);
    }
  }

  lemma FrontStays(s: System, step: Step)
    requires FrontKept(s) && Enabled(s, step)
    ensures FrontKept(Take(s, step))
  {
    match step {
      case Push(_) =>
      case Finish(_, _) =>
      case StartRead(size) => FrontAfterPass(s.bridge, size);
      case Wake => FrontAfterPass(s.bridge, s.reader.size);
    }
  }

  lemma FrontAfterPass(b: Bridge, size: nat)
    requires WellFormed(b)
    ensures var (b', r) := Attempt(b, size);
            && WellFormed(b') && b'.done == b.done
            && (r.Some? && !b.done ==> b'.chunks != [])
            && (r.None? ==> b'.chunkOffset == 0)
            && (b'.delivered == "" ==> b.delivered == "")
            && (b.chunkOffset == 0 && b'.delivered == "" ==> b'.chunkOffset == 0)
  {
    hide Queued;
    AttemptMoves(b, size);
    PopKeepsQueue(b);
  }

  /** In every run the bytes received are the bytes sent. */
  lemma {:induction false} ReceivedIsSent(s: System, steps: seq<Step>)
    requires FrontKept(s) && IsRun(s, steps)
    ensures Run(s, steps).bridge.received == s.bridge.received + (Pushed(steps) + Body(s, steps))
    decreases |steps|
  {
    hide FrontKept, TakesBody, Take, IsRun, Pushed, Body, Run;
    InFront(s);
    RunOnce(s, steps);
    if steps == [] {
      assert s.bridge.received + ("" + "") == s.bridge.received;
    } else {
      var t := Take(s, steps[0]);
      FrontStays(s, steps[0]);
      ReceivedIsSent(t, steps[1..]);
      StepReceives(s, steps[0]);
      if steps[0].Finish? {
        NothingSentAfter(t, steps[1..]);
      } else {
        Regroup(s.bridge.received, if steps[0].Push? then steps[0].data else "", Pushed(steps[1..]), Body(t, steps[1..]));
      }
    }
  }

  lemma Regroup(a: string, b: string, c: string, d: string)
    ensures a + b + (c + d) == a + (b + c + d)
  {
  }

  lemma RunOnce(s: System, steps: seq<Step>)
    requires WellFormed(s.bridge) && IsRun(s, steps)
    ensures steps == [] ==> Run(s, steps) == s && Pushed(steps) == Body(s, steps) == ""
    ensures steps != [] ==>
              && Enabled(s, steps[0]) && WellFormed(Take(s, steps[0]).bridge) && IsRun(Take(s, steps[0]), steps[1..])
              && Run(s, steps) == Run(Take(s, steps[0]), steps[1..])
              && Pushed(steps) == (if steps[0].Push? then steps[0].data else "") + Pushed(steps[1..])
              && Body(s, steps) ==
                   match steps[0]
                   case Finish(ok, body) => if ok && TakesBody(s) then body else ""
                   case _ => Body(Take(s, steps[0]), steps[1..])
  {
    hide TakesBody, Take, Enabled;
  }

  lemma StepReceives(s: System, step: Step)
    requires FrontKept(s) && Enabled(s, step)
    ensures WellFormed(Take(s, step).bridge) && (s.bridge.done || step.Finish? ==> Take(s, step).bridge.done)
    ensures Take(s, step).bridge.received == s.bridge.received +
              match step
              case Push(data) => data
              case Finish(ok, body) => if ok && TakesBody(s) then body else ""
              case _ => ""
  {
    hide Attempt, Queued, FrontKept, TakesBody;
    InFront(s);
    match step {
      case Push(_) =>
      case Finish(_, _) => EmptyDeque(s);
      case StartRead(size) => AttemptMoves(s.bridge, size);
      case Wake => AttemptMoves(s.bridge, s.reader.size);
    }
  }

  lemma InFront(s: System)
    requires FrontKept(s)
    ensures WellFormed(s.bridge)
  {
  }

  lemma {:induction false} NothingSentAfter(s: System, steps: seq<Step>)
    requires FrontKept(s) && s.bridge.done && IsRun(s, steps)
    ensures Pushed(steps) == "" && Body(s, steps) == ""
    decreases |steps|
  {
    hide FrontKept, TakesBody, Take, IsRun, Pushed, Body, Run;
    InFront(s);
    RunOnce(s, steps);
    if steps != [] {
      FrontStays(s, steps[0]);
      StepReceives(s, steps[0]);
      NothingSentAfter(Take(s, steps[0]), steps[1..]);
    }
  }

  lemma SentFromStart(steps: seq<Step>)
    requires IsRun(START, steps)
    ensures Run(START, steps).bridge.received == Sent(steps)
  {
    ReceivedIsSent(START, steps);
    assert "" + (Pushed(steps) + Body(START, steps)) == Pushed(steps) + Body(START, steps);
  }

  /** The transfer failed while the reader was asleep and every byte so far handed out. */
  ghost predicate Starved(s: System, steps: seq<Step>)
    requires WellFormed(s.bridge) && IsRun(s, steps)
    decreases |steps|
  {
    steps != [] &&
    match steps[0]
    case Finish(ok, _) => !ok && s.reader.Waiting? && Queued(s.bridge) == ""
    case _ => Starved(Take(s, steps[0]), steps[1..])
  }

  lemma {:induction false} StarvedExactly(s: System, steps: seq<Step>)
    requires FrontKept(s) && IsRun(s, steps) && (s.starvedAtFailure ==> s.bridge.done)
    ensures Run(s, steps).starvedAtFailure <==> if s.bridge.done then s.starvedAtFailure else Starved(s, steps)
    decreases |steps|
  {
    hide Attempt, Queued, FrontKept, WorkerDone, Received, AfterWait;
    InFront(s);
    if steps != [] {
      FrontStays(s, steps[0]);
      StepReceives(s, steps[0]);
      if steps[0].Finish? && s.reader.Waiting? {
        AsleepOnEmpty(s);
      }
      StepDone(s, steps[0]);
      StarvedExactly(Take(s, steps[0]), steps[1..]);
    }
  }

  lemma AsleepOnEmpty(s: System)
    requires FrontKept(s) && s.reader.Waiting?
    ensures s.bridge.chunks == [] <==> Queued(s.bridge) == ""
  {
    hide Queued;
    if s.bridge.chunks == [] {
      QueuedEmpty(s.bridge);
    } else {
      FrontQueued(s.bridge);
    }
  }

  lemma StepDone(s: System, step: Step)
    requires WellFormed(s.bridge) && Enabled(s, step)
    ensures Take(s, step).bridge.done <==> s.bridge.done || step.Finish?
    ensures !step.Finish? ==> Take(s, step).starvedAtFailure == s.starvedAtFailure
  {
    hide Attempt;
    match step {
      case StartRead(size) => AttemptMoves(s.bridge, size);
      case Wake => AttemptMoves(s.bridge, s.reader.size);
      case _ =>
    }
  }

  /** First in, first out, under every interleaving of worker and reader. */
  lemma Fifo(steps: seq<Step>)
    requires IsRun(START, steps)
    ensures var b := Run(START, steps).bridge;
            WellFormed(b) && b.delivered + Queued(b) == Sent(steps)
  {
    RunKeepsInv(START, steps);
    SentFromStart(steps);
  }

  /** 0 or -1 for a positive size means the worker is done and every byte was handed out. */
  lemma EndOfStreamIsReal(steps: seq<Step>)
    requires IsRun(START, steps) && Run(START, steps).sawEnd
    ensures var b := Run(START, steps).bridge; b.done && b.delivered == Sent(steps)
  {
    RunKeepsInv(START, steps);
    SentFromStart(steps);
  }

  /** Once the reader is back between reads, a worker failure has been reported as -1 exactly
      when the reader was asleep with nothing queued at the moment the worker failed. */
  lemma FailureReportedExactly(steps: seq<Step>)
    requires IsRun(START, steps) && Run(START, steps).reader.Idle?
    ensures var s := Run(START, steps); s.sawError <==> Starved(START, steps)
    ensures var s := Run(START, steps); s.sawError ==> s.bridge.workerError
  {
    RunKeepsInv(START, steps);
    StarvedExactly(START, steps);
  }

  /** A failed transfer that reads as a clean end: the worker fails with bytes still queued. */
  lemma FailureReadAsEnd(data: string, size: nat)
    requires 0 < |data| <= size
    ensures var steps := [Push(data), Finish(false, ""), StartRead(size), StartRead(size)];
            && IsRun(START, steps)
            && Run(START, steps) == System(Bridge([], 0, true, true, data, data), Idle, false, true, false)
  {
    var s1 := Take(START, Push(data));
    var s2 := Take(s1, Finish(false, ""));
    var s3 := Take(s2, StartRead(size));
    var s4 := Take(s3, StartRead(size));
    var steps := [Push(data), Finish(false, ""), StartRead(size), StartRead(size)];
    assert steps[1..][1..] == [StartRead(size), StartRead(size)];
    assert steps[1..][1..][1..] == [StartRead(size)];
    assert steps[1..][1..][1..][1..] == [];
    assert s2.bridge == Bridge([data], 0, true, true, data, "");
    assert data[0..0 + |data|] == data && "" + data == data;
    assert s3.bridge == Bridge([data], |data|, true, true, data, data);
    assert PopConsumed(s3.bridge) == Bridge([], 0, true, true, data, data);
    assert s4 == System(Bridge([], 0, true, true, data, data), Idle, false, true, false);
    assert IsRun(s4, []) && Run(s4, []) == s4;
    assert IsRun(s3, [StartRead(size)]) && Run(s3, [StartRead(size)]) == s4;
    assert IsRun(s2, [StartRead(size), StartRead(size)]) && Run(s2, [StartRead(size), StartRead(size)]) == s4;
    assert IsRun(s1, steps[1..]) && Run(s1, steps[1..]) == s4;
  }

  // ---------------------------------------------------------------------------------
  // After the worker is done
  // ---------------------------------------------------------------------------------

  ghost function ReadMany(b: Bridge, sizes: seq<nat>): Bridge
    requires WellFormed(b)
    decreases |sizes|
  {
    if sizes == [] then b
    else
      AttemptMoves(b, sizes[0]);
      ReadMany(Attempt(b, sizes[0]).0, sizes[1..])
  }

  /** No read blocks once the worker is done, and as many positive reads as bytes are queued
      hand out everything, whatever their sizes. */
  lemma {:induction false} DrainsAfterDone(b: Bridge, sizes: seq<nat>)
    requires WellFormed(b) && b.done
    requires forall i | 0 <= i < |sizes| :: sizes[i] > 0
    requires |sizes| >= |Queued(b)|
    ensures WellFormed(ReadMany(b, sizes)) && Queued(ReadMany(b, sizes)) == ""
    ensures ReadMany(b, sizes).delivered == b.delivered + Queued(b)
    ensures forall size: nat :: Attempt(ReadMany(b, sizes), size).1 == Some(ReadResult(0, ""))
    decreases |sizes|
  {
    hide Attempt, Queued, WellFormed;
    if sizes == [] {
      forall size: nat ensures Attempt(b, size).1 == Some(ReadResult(0, "")) {
        AttemptMoves(b, size);
      }
    } else {
      AttemptMoves(b, sizes[0]);
      var b' := Attempt(b, sizes[0]).0;
      DrainsAfterDone(b', sizes[1..]);
    }
  }
}
