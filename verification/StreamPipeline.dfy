/** The bridge and the pump together, as the streaming route connects them
    (`backend/src/proxy/upstream.cpp`, `backend/src/proxy/gateway.cpp`): no polling, no initial
    body, reads of one buffer. What a stream bills, under every schedule of worker and reader. */
module StreamPipeline {
  import opened Text
  import opened SseReader
  import opened StreamPump
  import opened StreamBilling
  import B = StreamBridge

  const BUFFER_BYTES: nat := 8192

  /** How the pump takes a return value; after -1 it asks `errno`, which nothing has set. */
  function TurnSeen(r: B.ReadResult, errnoWouldBlock: bool): Turn {
    var read := if r.n >= 0 then Data(r.bytes) else if errnoWouldBlock then WouldBlock else ReadError;
    TurnOf(false, Round(Readable, read))
  }

  /** The return value of a step, for the steps that end a read. */
  function Returned(s: B.System, step: B.Step): Option<B.ReadResult>
    requires B.WellFormed(s.bridge) && B.Enabled(s, step)
  {
    match step
    case StartRead(size) => B.Attempt(s.bridge, size).1
    case Wake => B.AfterWait(s.bridge, s.reader.size).1
    case _ => None
  }

  /** The pump reads one buffer at a time and stops reading at the end of the stream. */
  predicate PumpReads(s: B.System, step: B.Step) {
    step.StartRead? ==> step.size == BUFFER_BYTES && !s.sawEnd
  }

  ghost predicate IsPumpRun(s: B.System, steps: seq<B.Step>)
    requires B.WellFormed(s.bridge)
    ensures IsPumpRun(s, steps) ==> B.IsRun(s, steps)
    decreases |steps|
  {
    steps == [] ||
    (&& B.Enabled(s, steps[0]) && PumpReads(s, steps[0])
     && B.WellFormed(B.Take(s, steps[0]).bridge)
     && IsPumpRun(B.Take(s, steps[0]), steps[1..]))
  }

  ghost function Observed(s: B.System, steps: seq<B.Step>, errnoWouldBlock: bool): seq<Turn>
    requires B.WellFormed(s.bridge) && IsPumpRun(s, steps)
    decreases |steps|
  {
    if steps == [] then []
    else
      var later := Observed(B.Take(s, steps[0]), steps[1..], errnoWouldBlock);
      match Returned(s, steps[0])
      case None => later
      case Some(r) => [TurnSeen(r, errnoWouldBlock)] + later
  }

  /** A pump in the middle of a stream: no end seen, and a pending read asks for one buffer. */
  ghost predicate Reading(s: B.System) {
    && B.Inv(s) && !s.sawError
    && (s.reader.Waiting? ==> s.reader.size == BUFFER_BYTES && !s.sawEnd)
  }

  /** One step of a pump run: what it returns is what it delivers. */
  lemma StepSeen(s: B.System, step: B.Step, errnoWouldBlock: bool)
    requires Reading(s) && !s.sawEnd && B.Enabled(s, step) && PumpReads(s, step)
    ensures var t := B.Take(s, step);
            && B.Inv(t) && (t.reader.Waiting? ==> t.reader.size == BUFFER_BYTES && !t.sawEnd)
            && match Returned(s, step)
               case None => !t.sawEnd && !t.sawError && t.bridge.delivered == s.bridge.delivered
               case Some(r) =>
                 var turn := TurnSeen(r, errnoWouldBlock);
                 && t.sawEnd == !turn.Chunk?
                 && t.sawError == (turn == TimedOut || turn == Broken)
                 && (t.sawError ==> turn == if errnoWouldBlock then TimedOut else Broken)
                 && t.bridge.delivered == s.bridge.delivered + (if turn.Chunk? then turn.bytes else "")
  {
    hide B.Attempt, B.Queued, B.Inv;
    B.StepKeepsInv(s, step);
    ReadingMeans(s);
    InvMeans(B.Take(s, step));
    match step {
      case StartRead(size) => B.AttemptMoves(s.bridge, size);
      case Wake => B.AttemptMoves(s.bridge, s.reader.size);
      case _ =>
    }
  }

  lemma ReadingMeans(s: B.System)
    requires Reading(s)
    ensures B.WellFormed(s.bridge) && !s.sawError && (s.reader.Waiting? ==> s.reader.size == BUFFER_BYTES && !s.sawEnd)
    ensures s.bridge.chunks == [] ==> B.Queued(s.bridge) == ""
  {
    hide B.Queued;
    if s.bridge.chunks == [] {
      B.QueuedEmpty(s.bridge);
    }
  }

  lemma InvMeans(t: B.System)
    requires B.Inv(t)
    ensures B.WellFormed(t.bridge)
    ensures t.bridge.delivered + B.Queued(t.bridge) == t.bridge.received
    ensures t.sawEnd ==> t.bridge.delivered == t.bridge.received
    ensures t.reader.Idle? ==> (t.sawError <==> t.starvedAtFailure)
  {
  }

  /** The chunks the pump ingests are, in order, the bytes delivered; they end with an end of
      stream or with the worker's error as the reader saw it. */
  lemma {:induction false} ObservedIsDelivered(s: B.System, steps: seq<B.Step>, errnoWouldBlock: bool)
    requires Reading(s) && !s.sawEnd && IsPumpRun(s, steps)
    ensures var t, turns := B.Run(s, steps), Observed(s, steps, errnoWouldBlock);
            && B.Inv(t)
            && t.bridge.delivered == s.bridge.delivered + Flatten(Leading(turns))
            && Terminator(turns) == (if !t.sawError then End else if errnoWouldBlock then TimedOut else Broken)
            && (t.sawEnd ==> t.reader.Idle?)
    decreases |steps|
  {
    hide B.Inv, Returned, TurnSeen, B.Take, B.Run, Observed, IsPumpRun, PumpReads, Flatten, Leading, Terminator;
    NoTurns();
    InvMeans(s);
    if steps == [] {
      NoSteps(s, errnoWouldBlock);
      assert s.bridge.delivered + "" == s.bridge.delivered;
    } else {
      OneStep(s, steps, errnoWouldBlock);
      StepSeen(s, steps[0], errnoWouldBlock);
      var t := B.Take(s, steps[0]);
      InvMeans(t);
      if t.sawEnd {
        NothingAfterEnd(t, steps[1..]);
        NoSteps(t, errnoWouldBlock);
      } else {
        ObservedIsDelivered(t, steps[1..], errnoWouldBlock);
      }
      var later := Observed(t, steps[1..], errnoWouldBlock);
      match Returned(s, steps[0]) {
        case None =>
          assert [] + later == later;
        case Some(r) =>
          var turn := TurnSeen(r, errnoWouldBlock);
          TurnsCons(turn, later);
          Regroup(s.bridge.delivered, if turn.Chunk? then turn.bytes else "", Flatten(Leading(later)));
      }
    }
  }

  lemma NoSteps(s: B.System, errnoWouldBlock: bool)
    requires B.WellFormed(s.bridge)
    ensures IsPumpRun(s, []) && B.Run(s, []) == s && Observed(s, [], errnoWouldBlock) == []
  {
  }

  lemma OneStep(s: B.System, steps: seq<B.Step>, errnoWouldBlock: bool)
    requires B.WellFormed(s.bridge) && IsPumpRun(s, steps) && steps != []
    ensures B.Enabled(s, steps[0]) && PumpReads(s, steps[0])
    ensures var t := B.Take(s, steps[0]);
            && B.WellFormed(t.bridge) && IsPumpRun(t, steps[1..])
            && B.Run(s, steps) == B.Run(t, steps[1..])
            && Observed(s, steps, errnoWouldBlock) ==
                 (match Returned(s, steps[0])
                  case None => []
                  case Some(r) => [TurnSeen(r, errnoWouldBlock)]) + Observed(t, steps[1..], errnoWouldBlock)
  {
    hide B.Take, B.Enabled, PumpReads, Returned, TurnSeen;
  }

  lemma NothingAfterEnd(t: B.System, steps: seq<B.Step>)
    requires B.Inv(t) && t.sawEnd && t.reader.Idle? && IsPumpRun(t, steps)
    ensures steps == []
  {
  }

  /** The pump has stopped: it saw the end of the stream, or its reader rejected the bytes. */
  ghost predicate Stopped(t: B.System) {
    t.sawEnd || !Accepts(t.bridge.delivered)
  }

  /** The whole answer is good, complete and carries usage. */
  ghost predicate BillableAnswer<D>(g: Gateway<D>, bytes: string) {
    Accepts(bytes) && SomeCompletes(g, Events(bytes)) && SomeUsage(g, Events(bytes))
  }

  /** What the streaming route bills a client that stays, under every schedule: the batch
      reading of everything the worker sent decides, and whether the reader was asleep with nothing
      queued when the transfer failed. The cuts, the order of the threads, and a failure
      with bytes still queued do not count. */
  lemma BilledExactly<D>(env: Env<D>, billing: Billing, steps: seq<B.Step>, errnoWouldBlock: bool)
    requires IsPumpRun(B.START, steps) && Stopped(B.Run(B.START, steps))
    ensures
      var t := B.Run(B.START, steps);
      var S := Pump(Connected(env), billing, "", Observed(B.START, steps, errnoWouldBlock));
      && (Billed(S) <==> !B.Starved(B.START, steps) && BillableAnswer(env.gateway, B.Sent(steps)))
      && (Billed(S) ==>
            && S.handled == HandleAll(env.gateway, Start(billing).handled, Events(B.Sent(steps)))
            && S.handled.billing == Record(env.gateway, billing, Events(B.Sent(steps))))
  {
    hide Record, B.Sent, B.Starved;
    B.SentFromStart(steps);
    B.StarvedExactly(B.START, steps);
    hide Accepts, Events, HandleAll, SomeCompletes, SomeUsage, Pump, B.Run, Observed, B.Inv;
    var t, turns := B.Run(B.START, steps), Observed(B.START, steps, errnoWouldBlock);
    StartReading();
    ObservedIsDelivered(B.START, steps, errnoWouldBlock);
    assert "" + t.bridge.delivered == t.bridge.delivered;
    assert "" + Flatten(Leading(turns)) == t.bridge.delivered;
    ConnectedOutcome(env, billing, "", turns);
    InvMeans(t);
    if !Accepts(t.bridge.delivered) {
      RejectedForever(t.bridge.delivered, B.Queued(t.bridge));
    } else {
      HandleAllMeaning(env.gateway, Start(billing).handled, Events(t.bridge.received));
      HandleAllRecords(env.gateway, Start(billing).handled, Events(t.bridge.received));
    }
  }

  /** How a failed transfer is flagged to a client that stays: if the reader was starved, as a
      timeout or an error by what `errno` happens to hold; otherwise not at all. */
  lemma FailureFlags<D>(env: Env<D>, billing: Billing, steps: seq<B.Step>, errnoWouldBlock: bool)
    requires IsPumpRun(B.START, steps) && B.Run(B.START, steps).sawEnd && Accepts(B.Run(B.START, steps).bridge.delivered)
    ensures
      var S := Pump(Connected(env), billing, "", Observed(B.START, steps, errnoWouldBlock));
      && (S.idleTimeout <==> B.Starved(B.START, steps) && errnoWouldBlock)
      && (S.upstreamError <==> B.Starved(B.START, steps) && !errnoWouldBlock)
      && S.seen == B.Sent(steps)
  {
    hide Accepts, Events, HandleAll, B.Run, Observed, B.Inv, Loop, Flatten, Leading, Terminator, B.Sent, B.Starved;
    var t, turns := B.Run(B.START, steps), Observed(B.START, steps, errnoWouldBlock);
    StartReading();
    EmptyAccepted();
    B.SentFromStart(steps);
    B.StarvedExactly(B.START, steps);
    ObservedIsDelivered(B.START, steps, errnoWouldBlock);
    InvMeans(t);
    assert "" + t.bridge.delivered == t.bridge.delivered;
    assert "" + Flatten(Leading(turns)) == t.bridge.delivered;
    ConnectedFlags(env, Start(billing), turns);
  }

  lemma StartReading()
    ensures Reading(B.START) && !B.START.sawEnd
  {
  }

  /** Two schedules of the same answer bill alike unless only one of them starves the reader. */
  lemma ScheduleInvisible<D>(env: Env<D>, billing: Billing, steps: seq<B.Step>, steps': seq<B.Step>,
                             errno: bool, errno': bool)
    requires IsPumpRun(B.START, steps) && Stopped(B.Run(B.START, steps))
    requires IsPumpRun(B.START, steps') && Stopped(B.Run(B.START, steps'))
    requires B.Sent(steps) == B.Sent(steps')
    ensures
      var S := Pump(Connected(env), billing, "", Observed(B.START, steps, errno));
      var S' := Pump(Connected(env), billing, "", Observed(B.START, steps', errno'));
      && (Billed(S) && Billed(S') ==> S.handled == S'.handled)
      && (Billed(S) == Billed(S') <==>
            B.Starved(B.START, steps) == B.Starved(B.START, steps') || !BillableAnswer(env.gateway, B.Sent(steps)))
  {
    hide Pump, B.Run, Observed, BillableAnswer, Stopped, B.Sent, B.Starved;
    BilledExactly(env, billing, steps, errno);
    BilledExactly(env, billing, steps', errno');
  }

  /** A pump whose client may drop has stopped: it gave up on a client that is gone after the
      answer was complete, or it has stopped as above. */
  ghost predicate StoppedOrLeft<D>(env: Env<D>, billing: Billing, t: B.System, turns: seq<Turn>) {
    match Unread(env, billing, "", turns)
    case Some(rest) => rest == []
    case None => Stopped(t)
  }

  lemma EmptyStart<D>(env: Env<D>, billing: Billing)
    ensures BeforeLoop(env, billing, "") == Start(billing)
  {
    hide Ingest;
  }

  /** The same for a client that may drop at any write. A run that gives up early bills exactly
      if what was delivered until then carries usage, whatever happens to the transfer later;
      any other run bills as if the client had stayed. */
  lemma BilledToDropped<D>(env: Env<D>, billing: Billing, steps: seq<B.Step>, errnoWouldBlock: bool)
    requires IsPumpRun(B.START, steps)
    requires StoppedOrLeft(env, billing, B.Run(B.START, steps), Observed(B.START, steps, errnoWouldBlock))
    ensures
      var t, turns := B.Run(B.START, steps), Observed(B.START, steps, errnoWouldBlock);
      var S, g, start := Pump(env, billing, "", turns), env.gateway, Start(billing).handled;
      match Unread(env, billing, "", turns)
      case Some(_) =>
        && (Billed(S) <==> SomeUsage(g, Events(t.bridge.delivered)))
        && S.handled == HandleAll(g, start, Events(t.bridge.delivered))
        && S.handled.billing == Record(g, billing, Events(t.bridge.delivered))
        && t.bridge.delivered <= B.Sent(steps)
      case None =>
        && (Billed(S) <==> !B.Starved(B.START, steps) && BillableAnswer(g, B.Sent(steps)))
        && (Billed(S) ==>
              && S.handled == HandleAll(g, start, Events(B.Sent(steps)))
              && S.handled.billing == Record(g, billing, Events(B.Sent(steps))))
  {
    hide Accepts, Events, HandleAll, SomeUsage, Record, B.Run, Observed, B.Sent, B.Starved, BillableAnswer, Pump, Unread;
    hide Stopped;
    if Unread(env, billing, "", Observed(B.START, steps, errnoWouldBlock)).Some? {
      LeftEarly(env, billing, steps, errnoWouldBlock);
    } else {
      DisconnectBilling(env, billing, "", Observed(B.START, steps, errnoWouldBlock));
      BilledExactly(env, billing, steps, errnoWouldBlock);
    }
  }

  lemma LeftEarly<D>(env: Env<D>, billing: Billing, steps: seq<B.Step>, errnoWouldBlock: bool)
    requires IsPumpRun(B.START, steps)
    requires Unread(env, billing, "", Observed(B.START, steps, errnoWouldBlock)) == Some([])
    ensures
      var t := B.Run(B.START, steps);
      var S := Pump(env, billing, "", Observed(B.START, steps, errnoWouldBlock));
      && (Billed(S) <==> SomeUsage(env.gateway, Events(t.bridge.delivered)))
      && S.handled == HandleAll(env.gateway, Start(billing).handled, Events(t.bridge.delivered))
      && S.handled.billing == Record(env.gateway, billing, Events(t.bridge.delivered))
      && t.bridge.delivered <= B.Sent(steps)
  {
    hide Accepts, Events, HandleAll, SomeUsage, SomeCompletes, B.Run, Observed, B.Inv, Loop, Ingest;
    hide EarlyRest, Flatten, Leading, Terminator, BeforeLoop, CleanTail, UsageLater, Record, LastModel, B.Sent, B.Queued, Billed;
    var t, turns := B.Run(B.START, steps), Observed(B.START, steps, errnoWouldBlock);
    B.Fifo(steps);
    EmptyStart(env, billing);
    EmptyAccepted();
    DisconnectBilling(env, billing, "", turns);
    StartReading();
    ObservedIsDelivered(B.START, steps, errnoWouldBlock);
    EarlySeen(env, Start(billing), turns);
    NoTurns();
    assert "" + t.bridge.delivered == t.bridge.delivered;
    var S := Pump(env, billing, "", turns);
    assert S.seen + "" == S.seen == t.bridge.delivered;
    var good := HandledIsBatch(env, billing, "", turns);
  }

  /** The rule of the responses route, for any client and under every schedule: usage among the
      events of the accepted part of what was delivered, which is all of it if nothing is rejected. */
  lemma HandleBilledToDropped<D>(env: Env<D>, billing: Billing, steps: seq<B.Step>, errnoWouldBlock: bool)
    returns (good: string)
    requires IsPumpRun(B.START, steps)
    requires var rest := Unread(env, billing, "", Observed(B.START, steps, errnoWouldBlock)); rest.Some? ==> rest.value == []
    ensures
      var t := B.Run(B.START, steps);
      var S := Pump(env, billing, "", Observed(B.START, steps, errnoWouldBlock));
      && good <= t.bridge.delivered && Accepts(good) && (Accepts(t.bridge.delivered) ==> good == t.bridge.delivered)
      && t.bridge.delivered <= B.Sent(steps)
      && (BilledByHandle(S) <==> SomeUsage(env.gateway, Events(good)))
      && S.handled.billing == Record(env.gateway, billing, Events(good))
  {
    hide Record, B.Sent, B.Queued;
    B.Fifo(steps);
    hide Accepts, Events, HandleAll, SomeUsage, SomeCompletes, B.Run, Observed, B.Inv, Ingest, Loop, EarlyRest, Flatten, Leading;
    hide Terminator, BeforeLoop, LastModel;
    EmptyStart(env, billing);
    var t, turns := B.Run(B.START, steps), Observed(B.START, steps, errnoWouldBlock);
    EmptyAccepted();
    StartReading();
    ObservedIsDelivered(B.START, steps, errnoWouldBlock);
    NoTurns();
    assert "" + t.bridge.delivered == t.bridge.delivered;
    var k := ExactForwarding(env, billing, "", turns);
    FlattenPrefix(Leading(turns), k);
    var S := Pump(env, billing, "", turns);
    assert "" + Flatten(Leading(turns)[..k]) == S.seen;
    good := HandledIsBatch(env, billing, "", turns);
    HandleAllMeaning(env.gateway, Start(billing).handled, Events(good));
    if Accepts(t.bridge.delivered) {
      if Unread(env, billing, "", turns).Some? {
        EarlySeen(env, Start(billing), turns);
        assert S.seen + "" == S.seen;
      } else {
        AllSeen(env, Start(billing), turns);
      }
    }
  }

  lemma {:induction false} FlattenPrefix(parts: seq<string>, k: nat)
    requires k <= |parts|
    ensures Flatten(parts[..k]) <= Flatten(parts)
  {
    if k > 0 {
      FlattenPrefix(parts[1..], k - 1);
      assert parts[..k][1..] == parts[1..][..k - 1];
    }
  }

  lemma FailureIsPumpRun(data: string)
    requires 0 < |data| <= BUFFER_BYTES
    ensures IsPumpRun(B.START, [B.Push(data), B.Finish(false, ""), B.StartRead(BUFFER_BYTES), B.StartRead(BUFFER_BYTES)])
  {
    var read := B.StartRead(BUFFER_BYTES);
    var steps := [B.Push(data), B.Finish(false, ""), read, read];
    B.FailureReadAsEnd(data, BUFFER_BYTES);
    var s1 := B.Take(B.START, B.Push(data));
    var s2 := B.Take(s1, B.Finish(false, ""));
    var s3 := B.Take(s2, read);
    assert steps[1..][1..] == [read, read] && [read, read][1..] == [read] && [read][1..] == [];
    assert B.IsRun(s1, steps[1..]) && B.IsRun(s2, [read, read]) && B.IsRun(s3, [read]);
    assert s2.bridge == B.Bridge([data], 0, true, true, data, "");
    assert s3.reader.Idle? && !s3.sawEnd;
    assert IsPumpRun(B.Take(s3, read), []);
    assert IsPumpRun(s3, [read]);
    assert IsPumpRun(s2, [read, read]);
    assert IsPumpRun(s1, steps[1..]);
  }

  lemma AnswerIsBillable()
    ensures BillableAnswer(GATEWAY, ANSWER)
  {
    hide Accepts, Events;
    AnswerEvents();
    TrimFixed("u");
    assert CarriesUsage(GATEWAY, Events(ANSWER)[0]);
    assert Completes(GATEWAY, Events(ANSWER)[1]);
  }

  lemma AnswerSent()
    ensures var steps := [B.Push(ANSWER), B.Finish(false, ""), B.StartRead(BUFFER_BYTES), B.StartRead(BUFFER_BYTES)];
            B.IsRun(B.START, steps) && B.Sent(steps) == ANSWER && !B.Starved(B.START, steps)
  {
    hide B.Sent, B.Starved, Flatten;
    var steps := [B.Push(ANSWER), B.Finish(false, ""), B.StartRead(BUFFER_BYTES), B.StartRead(BUFFER_BYTES)];
    B.FailureReadAsEnd(ANSWER, BUFFER_BYTES);
    B.SentFromStart(steps);
    B.StarvedExactly(B.START, steps);
  }

  /** A transfer that failed, billed in full: it failed with the whole answer still queued. */
  lemma FailedTransferIsBilled(billing: Billing)
    ensures var env := Env(GATEWAY, (_: nat) => true, false);
            var steps := [B.Push(ANSWER), B.Finish(false, ""), B.StartRead(BUFFER_BYTES), B.StartRead(BUFFER_BYTES)];
            && IsPumpRun(B.START, steps) && B.Run(B.START, steps).bridge.workerError
            && Billed(Pump(Connected(env), billing, "", Observed(B.START, steps, false)))
  {
    hide Pump, Observed, Accepts, Events, HandleAll;
    var env := Env(GATEWAY, (_: nat) => true, false);
    var steps := [B.Push(ANSWER), B.Finish(false, ""), B.StartRead(BUFFER_BYTES), B.StartRead(BUFFER_BYTES)];
    B.FailureReadAsEnd(ANSWER, BUFFER_BYTES);
    FailureIsPumpRun(ANSWER);
    AnswerSent();
    BilledExactly(env, billing, steps, false);
    AnswerEvents();
    AnswerIsBillable();
  }
}
