/** `pump_gateway_stream` and `handle_sse_event` (`backend/src/proxy/gateway.cpp`): forwarding
    the upstream bytes to the client while reading usage and completion out of them. */
module StreamPump {
  import opened Text
  import opened SseReader

  const FLUSH_BYTES: nat := 1024

  datatype Usage = Usage(
    inputTokens: int,
    outputTokens: int,
    cacheReadTokens: int,
    cacheCreation1hTokens: int,
    cacheCreation5mTokens: int)

  /** The parts of a request that `finalize` may set. */
  datatype Billing = Billing(usage: Usage, modelName: string, serviceTier: string)

  /** A parsed event object: its `type`, the first model name in it, and whether a usage
      object occurs anywhere; `root` stands for the whole document. */
  datatype Message<D> = Message(eventType: Option<string>, model: Option<string>, hasUsage: bool, root: D)

  /** JSON parsing and the gateway's `finalize`. */
  datatype Gateway<!D> = Gateway(parse: string -> Option<Message<D>>, finalize: (Billing, D) -> Billing)

  /** The gateway, the outcome of each write to the client by number, and whether reads are polled. */
  datatype Env<!D> = Env(gateway: Gateway<D>, writeOk: nat -> bool, usePoll: bool)

  datatype Poll = Readable | PollTimeout | PollError
  datatype Read = Data(bytes: string) | WouldBlock | ReadError
  datatype Round = Round(poll: Poll, read: Read)

  // ---------------------------------------------------------------------------------
  // Events
  // ---------------------------------------------------------------------------------

  datatype Handled = Handled(completed: bool, sawUsage: bool, model: Option<string>, billing: Billing)

  predicate IsTerminalKind(kind: string) {
    kind == "message_stop" || kind == "response.completed"
  }

  predicate IsTerminal(eventType: Option<string>) {
    eventType.Some? && IsTerminalKind(eventType.value)
  }

  function HandleEvent<D>(g: Gateway<D>, h: Handled, event: SseEvent): Handled {
    if event.done then h.(completed := true)
    else
      match g.parse(Trim(event.data))
      case None => h
      case Some(msg) =>
        Handled(
          h.completed || IsTerminal(msg.eventType),
          h.sawUsage || msg.hasUsage,
          if msg.model.Some? then msg.model else h.model,
          if msg.hasUsage then g.finalize(h.billing, msg.root) else h.billing)
  }

  function HandleAll<D>(g: Gateway<D>, h: Handled, events: seq<SseEvent>): Handled {
    if events == [] then h
    else HandleEvent(g, HandleAll(g, h, events[..|events| - 1]), events[|events| - 1])
  }

  /** The end mark, or a message of one of the two types that end an answer. */
  predicate Completes<D>(g: Gateway<D>, event: SseEvent) {
    event.done ||
    (var msg := g.parse(Trim(event.data));
     msg.Some? && (msg.value.eventType == Some("message_stop") || msg.value.eventType == Some("response.completed")))
  }

  predicate CarriesUsage<D>(g: Gateway<D>, event: SseEvent) {
    !event.done && (var msg := g.parse(Trim(event.data)); msg.Some? && msg.value.hasUsage)
  }

  ghost predicate SomeCompletes<D>(g: Gateway<D>, events: seq<SseEvent>) {
    exists i :: 0 <= i < |events| && Completes(g, events[i])
  }

  ghost predicate SomeUsage<D>(g: Gateway<D>, events: seq<SseEvent>) {
    exists i :: 0 <= i < |events| && CarriesUsage(g, events[i])
  }

  /** The flags of a fold over events are plain existence statements; without a usage event
      the billing record does not move. */
  lemma {:induction false} HandleAllMeaning<D>(g: Gateway<D>, h: Handled, events: seq<SseEvent>)
    ensures var r := HandleAll(g, h, events);
            && (r.completed <==> h.completed || SomeCompletes(g, events))
            && (r.sawUsage <==> h.sawUsage || SomeUsage(g, events))
            && (!SomeUsage(g, events) ==> r.billing == h.billing)
  {
    if events != [] {
      var init, last := events[..|events| - 1], events[|events| - 1];
      HandleAllMeaning(g, h, init);
      assert forall i :: 0 <= i < |init| ==> init[i] == events[i];
      assert events[|init|] == last;
      assert SomeCompletes(g, events) <==> SomeCompletes(g, init) || Completes(g, last) by {
        if SomeCompletes(g, init) {
          var i :| 0 <= i < |init| && Completes(g, init[i]);
          assert Completes(g, events[i]);
        }
      }
      assert SomeUsage(g, events) <==> SomeUsage(g, init) || CarriesUsage(g, last) by {
        if SomeUsage(g, init) {
          var i :| 0 <= i < |init| && CarriesUsage(g, init[i]);
          assert CarriesUsage(g, events[i]);
        }
      }
    }
  }

  /** The documents that carry usage, in order. */
  function UsageRoots<D>(g: Gateway<D>, events: seq<SseEvent>): seq<D> {
    if events == [] then []
    else
      (if CarriesUsage(g, events[0]) then [g.parse(Trim(events[0].data)).value.root] else []) +
      UsageRoots(g, events[1..])
  }

  /** `finalize` for one document after the other. */
  function FinalizeAll<D>(g: Gateway<D>, billing: Billing, roots: seq<D>): Billing
    decreases |roots|
  {
    if roots == [] then billing else FinalizeAll(g, g.finalize(billing, roots[0]), roots[1..])
  }

  /** The billing record of a list of events. */
  function Record<D>(g: Gateway<D>, billing: Billing, events: seq<SseEvent>): Billing {
    FinalizeAll(g, billing, UsageRoots(g, events))
  }

  /** The model an event names. */
  function ModelOf<D>(g: Gateway<D>, event: SseEvent): Option<string> {
    if event.done || g.parse(Trim(event.data)).None? then None else g.parse(Trim(event.data)).value.model
  }

  /** The model of the last event that names one. */
  function LastModel<D>(g: Gateway<D>, model: Option<string>, events: seq<SseEvent>): Option<string>
    decreases |events|
  {
    if events == [] then model
    else LastModel(g, if ModelOf(g, events[0]).Some? then ModelOf(g, events[0]) else model, events[1..])
  }

  /** The billing record is `finalize` applied to every document that carries usage, in order, and
      the model is the last one named. */
  lemma {:induction false} HandleAllRecords<D>(g: Gateway<D>, h: Handled, events: seq<SseEvent>)
    ensures HandleAll(g, h, events).billing == Record(g, h.billing, events)
    ensures HandleAll(g, h, events).model == LastModel(g, h.model, events)
    decreases |events|
  {
    hide HandleAll, Trim;
    HandleNone(g, h);
    if events != [] {
      var first, rest := events[0], events[1..];
      var h' := HandleAll(g, h, [first]);
      assert events == [first] + rest;
      HandleAllAppend(g, h, [first], rest);
      HandleOne(g, h, first);
      HandleAllRecords(g, h', rest);
      if CarriesUsage(g, first) {
        var root := g.parse(Trim(first.data)).value.root;
        assert UsageRoots(g, events)[0] == root && UsageRoots(g, events)[1..] == UsageRoots(g, rest);
      } else {
        assert UsageRoots(g, events) == UsageRoots(g, rest);
      }
    }
  }

  lemma HandleOne<D>(g: Gateway<D>, h: Handled, event: SseEvent)
    ensures var h' := HandleAll(g, h, [event]);
            && h'.billing == (if CarriesUsage(g, event) then g.finalize(h.billing, g.parse(Trim(event.data)).value.root)
                              else h.billing)
            && h'.model == (if ModelOf(g, event).Some? then ModelOf(g, event) else h.model)
  {
    hide Trim;
    HandleNone(g, h);
    assert [event][..0] == [];
  }

  lemma {:induction false} HandleAllAppend<D>(g: Gateway<D>, h: Handled, a: seq<SseEvent>, b: seq<SseEvent>)
    ensures HandleAll(g, h, a + b) == HandleAll(g, HandleAll(g, h, a), b)
    decreases |b|
  {
    if b == [] {
      assert a + b == a;
    } else {
      assert (a + b)[..|a + b| - 1] == a + b[..|b| - 1];
      HandleAllAppend(g, h, a, b[..|b| - 1]);
    }
  }

  // ---------------------------------------------------------------------------------
  // The pump as a function of its inputs
  // ---------------------------------------------------------------------------------

  /** What one poll and read amount to. */
  datatype Turn = Chunk(bytes: string) | End | TimedOut | Broken

  function TurnOf(usePoll: bool, round: Round): Turn {
    if usePoll && round.poll == PollTimeout then TimedOut
    else if usePoll && round.poll == PollError then Broken
    else
      match round.read
      case Data(bytes) => if bytes == "" then End else Chunk(bytes)
      case WouldBlock => TimedOut
      case ReadError => Broken
  }

  function Turns(usePoll: bool, rounds: seq<Round>): seq<Turn> {
    seq(|rounds|, i requires 0 <= i < |rounds| => TurnOf(usePoll, rounds[i]))
  }

  datatype PumpState = PumpState(
    handled: Handled,
    clientDisconnected: bool,
    idleTimeout: bool,
    upstreamError: bool,
    responseBytes: nat,
    pending: string,
    writes: seq<string>,
    seen: string)

  function Start(billing: Billing): PumpState {
    PumpState(Handled(false, false, None, billing), false, false, false, 0, "", [], "")
  }

  function Forward<D>(env: Env<D>, s: PumpState, bytes: string): PumpState {
    if s.clientDisconnected then s
    else if |s.pending + bytes| >= FLUSH_BYTES then
      s.(pending := "",
         writes := s.writes + [s.pending + bytes],
         clientDisconnected := !env.writeOk(|s.writes|))
    else s.(pending := s.pending + bytes)
  }

  /** The events the reader adds for one accepted chunk. */
  ghost function NewEvents(seen: string, bytes: string): seq<SseEvent>
    requires Accepts(seen + bytes)
  {
    AcceptsPrefix(seen, bytes);
    Events(seen + bytes)[|Events(seen)|..]
  }

  ghost function Ingest<D>(env: Env<D>, s: PumpState, bytes: string): PumpState {
    var f := Forward(env, s, bytes).(responseBytes := s.responseBytes + |bytes|, seen := s.seen + bytes);
    if Accepts(s.seen + bytes)
    then f.(handled := HandleAll(env.gateway, s.handled, NewEvents(s.seen, bytes)))
    else f.(upstreamError := true)
  }

  ghost function Loop<D>(env: Env<D>, s: PumpState, turns: seq<Turn>): PumpState
    decreases |turns|
  {
    if turns == [] then s
    else
      match turns[0]
      case End => s
      case TimedOut => s.(idleTimeout := s.idleTimeout || !s.clientDisconnected)
      case Broken => s.(upstreamError := true)
      case Chunk(bytes) =>
        var s' := Ingest(env, s, bytes);
        if !Accepts(s'.seen) || (s'.clientDisconnected && s'.handled.completed) then s'
        else Loop(env, s', turns[1..])
  }

  function FinalFlush(s: PumpState): PumpState {
    if s.pending != "" && !s.clientDisconnected then s.(writes := s.writes + [s.pending]) else s
  }

  ghost function BeforeLoop<D>(env: Env<D>, billing: Billing, initial: string): PumpState {
    if initial == "" then Start(billing) else Ingest(env, Start(billing), initial)
  }

  ghost function Pump<D>(env: Env<D>, billing: Billing, initial: string, turns: seq<Turn>): PumpState {
    var s := BeforeLoop(env, billing, initial);
    FinalFlush(if Accepts(s.seen) then Loop(env, s, turns) else s)
  }

  // ---------------------------------------------------------------------------------
  // The code
  // ---------------------------------------------------------------------------------

  class GatewayStreamPump<!D> {
    const env: Env<D>
    var completed: bool
    var clientDisconnected: bool
    var idleTimeout: bool
    var upstreamError: bool
    var sawUsage: bool
    var responseBytes: nat
    var model: Option<string>
    var billing: Billing
    var pendingSend: string
    var writes: seq<string> // every call made to the client writer
    var reader: SseReader

    constructor (env: Env<D>, billing: Billing)
      ensures this.env == env && View() == Start(billing)
      ensures reader.Valid() && reader.ok && fresh(reader) && reader.seen == ""
    {
      this.env := env;
      completed, clientDisconnected, idleTimeout, upstreamError, sawUsage := false, false, false, false, false;
      responseBytes, model, pendingSend, writes := 0, None, "", [];
      this.billing := billing;
      reader := new SseReader();
    }

    ghost function HandledNow(): Handled
      reads this
    {
      Handled(completed, sawUsage, model, billing)
    }

    ghost function View(): PumpState
      reads this, reader
    {
      PumpState(
        HandledNow(),
        clientDisconnected, idleTimeout, upstreamError, responseBytes, pendingSend, writes, reader.seen)
    }

    method HandleSseEvent(event: SseEvent)
      modifies this`completed, this`model, this`billing, this`sawUsage
      ensures HandledNow() == HandleEvent(env.gateway, old(HandledNow()), event)
    {
      hide Trim, IsTerminalKind;
      if event.done {
        completed := true;
        return;
      }
      var trimmed := TrimAscii(event.data);
      var doc := env.gateway.parse(trimmed);
      if doc.None? {
        return;
      }
      if doc.value.eventType.Some? {
        if IsTerminalKind(doc.value.eventType.value) {
          completed := true;
        }
      }
      if doc.value.model.Some? {
        model := doc.value.model;
      }
      if doc.value.hasUsage {
        billing := env.gateway.finalize(billing, doc.value.root);
        sawUsage := true;
      }
    }

    method WriteToClient(bytes: string) returns (written: bool)
      modifies this`writes
      ensures writes == old(writes) + [bytes] && written == env.writeOk(|old(writes)|)
    {
      written := env.writeOk(|writes|);
      writes := writes + [bytes];
    }

    method IngestBytes(bytes: string) returns (good: bool)
      requires reader.Valid() && reader.ok
      modifies this, reader
      ensures reader == old(reader) && reader.Valid()
      ensures View() == Ingest(env, old(View()), bytes)
      ensures good == reader.ok == Accepts(reader.seen)
    {
      hide Accepts, Events, HandleAll, Forward;
      ghost var before := View();
      ForwardFields(env, before, bytes);
      ForwardBytes(bytes);
      var events;
      good, events := reader.Consume(bytes, []);
      if !good {
        upstreamError := true;
        return false;
      }
      AcceptsPrefix(before.seen, bytes);
      GoodIsAll(before.seen);
      GoodIsAll(before.seen + bytes);
      HandleEvents(events);
      return true;
    }

    method ForwardBytes(bytes: string)
      modifies this
      ensures reader == old(reader)
      ensures View() == Forward(env, old(View()), bytes).(responseBytes := old(responseBytes) + |bytes|)
    {
      responseBytes := responseBytes + |bytes|;
      if !clientDisconnected {
        pendingSend := pendingSend + bytes;
        if |pendingSend| >= FLUSH_BYTES {
          var written := WriteToClient(pendingSend);
          if !written {
            clientDisconnected := true;
          }
          pendingSend := "";
        }
      }
    }

    method HandleEvents(events: seq<SseEvent>)
      modifies this
      ensures reader == old(reader)
      ensures View() == old(View()).(handled := HandleAll(env.gateway, old(View()).handled, events))
    {
      for i := 0 to |events|
        invariant reader == old(reader)
        invariant View() == old(View()).(handled := HandleAll(env.gateway, old(View()).handled, events[..i]))
      {
        assert events[..i + 1][..i] == events[..i];
        HandleSseEvent(events[i]);
      }
      assert events[..|events|] == events;
    }

    /** The read loop, from the first poll to the break that ends it. */
    method ReadLoop(rounds: seq<Round>)
      requires reader.Valid() && reader.ok
      modifies this, reader
      ensures reader == old(reader) && reader.Valid() && reader.ok == Accepts(reader.seen)
      ensures View() == Loop(env, old(View()), Turns(env.usePoll, rounds))
    {
      hide Accepts, Ingest, Turns;
      ghost var turns := Turns(env.usePoll, rounds);
      TurnsAt(env.usePoll, rounds);
      var i := 0;
      assert turns[0..] == turns;
      while i < |rounds| // a stream with nothing more to say reads as its end
        invariant 0 <= i <= |rounds| == |turns|
        invariant reader == old(reader) && reader.Valid() && reader.ok && Accepts(reader.seen)
        invariant Loop(env, View(), turns[i..]) == Loop(env, old(View()), turns)
        decreases |rounds| - i
      {
        assert turns[i..][0] == turns[i] && turns[i..][1..] == turns[i + 1..];
        var round := rounds[i];
        i := i + 1;
        if env.usePoll {
          if round.poll == PollTimeout {
            if !clientDisconnected {
              idleTimeout := true;
            }
            break;
          }
          if round.poll == PollError {
            upstreamError := true;
            break;
          }
        }
        if round.read.Data? && round.read.bytes == "" {
          break;
        }
        if !round.read.Data? {
          if round.read.WouldBlock? {
            if !clientDisconnected {
              idleTimeout := true;
            }
            break;
          }
          upstreamError := true;
          break;
        }
        var good := IngestBytes(round.read.bytes);
        if !good {
          break;
        }
        if clientDisconnected && completed {
          break;
        }
      }
    }

    /** `pump_gateway_stream` */
    method Run(initial: string, rounds: seq<Round>)
      requires View() == Start(billing) && reader.Valid() && reader.ok
      modifies this, reader
      ensures View() == Pump(env, old(billing), initial, Turns(env.usePoll, rounds))
    {
      hide Accepts, Ingest, Loop, Turns;
      EmptyAccepted();
      if initial != "" {
        var good := IngestBytes(initial);
        if !good {
          Flush();
          return;
        }
      }
      LoopFlags(env, View(), Turns(env.usePoll, rounds));
      ReadLoop(rounds);
      var finished := reader.Finish();
      if !finished {
        upstreamError := true;
      }
      Flush();
    }

    method Flush()
      modifies this`writes
      ensures View() == FinalFlush(old(View()))
    {
      if pendingSend != "" && !clientDisconnected {
        var _ := WriteToClient(pendingSend); // the outcome is ignored
      }
    }
  }

  lemma ForwardFields<D>(env: Env<D>, s: PumpState, bytes: string)
    ensures var f := Forward(env, s, bytes);
            f == s.(pending := f.pending, writes := f.writes, clientDisconnected := f.clientDisconnected)
  {
  }

  lemma TurnsAt(usePoll: bool, rounds: seq<Round>)
    ensures |Turns(usePoll, rounds)| == |rounds|
    ensures forall i | 0 <= i < |rounds| :: Turns(usePoll, rounds)[i] == TurnOf(usePoll, rounds[i])
  {
  }

  lemma {:induction false} LoopFlags<D>(env: Env<D>, s: PumpState, turns: seq<Turn>)
    requires Accepts(s.seen)
    ensures var t := Loop(env, s, turns); !Accepts(t.seen) ==> t.upstreamError
    decreases |turns|
  {
    hide Accepts;
    if turns != [] && turns[0].Chunk? {
      var s' := Ingest(env, s, turns[0].bytes);
      if Accepts(s'.seen) {
        LoopFlags(env, s', turns[1..]);
      }
    }
  }

  // ---------------------------------------------------------------------------------
  // Forwarding
  // ---------------------------------------------------------------------------------

  /** The chunks read before the first turn that is not a chunk. */
  function Leading(turns: seq<Turn>): seq<string> {
    if turns != [] && turns[0].Chunk? then [turns[0].bytes] + Leading(turns[1..]) else []
  }

  /** The turn that ends the chunks; running out of turns is an end of stream. */
  function Terminator(turns: seq<Turn>): Turn {
    if turns == [] then End
    else if turns[0].Chunk? then Terminator(turns[1..])
    else turns[0]
  }

  lemma LoopOnce<D>(env: Env<D>, s: PumpState, turns: seq<Turn>)
    ensures turns == [] ==> Loop(env, s, turns) == s
    ensures turns != [] && !turns[0].Chunk? ==>
              Loop(env, s, turns) ==
                match turns[0]
                case TimedOut => s.(idleTimeout := s.idleTimeout || !s.clientDisconnected)
                case Broken => s.(upstreamError := true)
                case _ => s
    ensures turns != [] && turns[0].Chunk? ==>
              var s' := Ingest(env, s, turns[0].bytes);
              Loop(env, s, turns) ==
                if !Accepts(s'.seen) || (s'.clientDisconnected && s'.handled.completed) then s'
                else Loop(env, s', turns[1..])
  {
    hide Ingest, Accepts;
  }

  lemma NoTurns()
    ensures Leading([]) == [] && Terminator([]) == End && Flatten([]) == ""
  {
  }

  lemma FlattenCons(first: string, rest: seq<string>)
    ensures Flatten([first] + rest) == first + Flatten(rest)
  {
    assert ([first] + rest)[1..] == rest;
  }

  lemma TurnsCons(turn: Turn, later: seq<Turn>)
    ensures turn.Chunk? ==>
              && Flatten(Leading([turn] + later)) == turn.bytes + Flatten(Leading(later))
              && Terminator([turn] + later) == Terminator(later)
    ensures !turn.Chunk? ==> Flatten(Leading([turn] + later)) == "" && Terminator([turn] + later) == turn
  {
    hide Flatten;
    NoTurns();
    assert ([turn] + later)[1..] == later;
    if turn.Chunk? {
      FlattenCons(turn.bytes, Leading(later));
    }
  }

  ghost predicate ForwardInv<D>(env: Env<D>, s: PumpState) {
    && s.responseBytes == |s.seen|
    && (forall i | 0 <= i < |s.writes| :: |s.writes[i]| >= FLUSH_BYTES)
    && (if s.clientDisconnected
        then
          && s.writes != [] && !env.writeOk(|s.writes| - 1)
          && (forall i: nat | i < |s.writes| - 1 :: env.writeOk(i))
          && Flatten(s.writes) <= s.seen
          && s.pending == ""
        else
          && (forall i: nat | i < |s.writes| :: env.writeOk(i))
          && Flatten(s.writes) + s.pending == s.seen
          && |s.pending| < FLUSH_BYTES)
  }

  lemma IngestForwards<D>(env: Env<D>, s: PumpState, bytes: string)
    requires ForwardInv(env, s)
    ensures ForwardInv(env, Ingest(env, s, bytes))
    ensures Ingest(env, s, bytes).seen == s.seen + bytes
  {
    hide Accepts, HandleAll, Flatten, Forward;
    ForwardKeeps(env, s, bytes);
  }

  lemma ForwardKeeps<D>(env: Env<D>, s: PumpState, bytes: string)
    requires ForwardInv(env, s)
    ensures var f := Forward(env, s, bytes);
            ForwardInv(env, f.(responseBytes := s.responseBytes + |bytes|, seen := s.seen + bytes))
  {
    hide Flatten;
    if !s.clientDisconnected {
      FlattenSnoc(s.writes, s.pending + bytes);
      assert Flatten(s.writes) + (s.pending + bytes) == s.seen + bytes;
    }
  }

  /** Where the loop stops: `k` chunks in, and before the last leading chunk only because the
      reader rejected the stream or because the client is gone and the answer complete. */
  lemma {:induction false} LoopForwards<D>(env: Env<D>, s: PumpState, turns: seq<Turn>) returns (k: nat)
    requires ForwardInv(env, s) && Accepts(s.seen)
    ensures var t := Loop(env, s, turns);
            && ForwardInv(env, t)
            && k <= |Leading(turns)| && t.seen == s.seen + Flatten(Leading(turns)[..k])
            && (k < |Leading(turns)| ==> !Accepts(t.seen) || (t.clientDisconnected && t.handled.completed))
    decreases |turns|
  {
    hide Accepts, Ingest, Loop;
    LoopOnce(env, s, turns);
    if turns != [] && turns[0].Chunk? {
      var s' := Ingest(env, s, turns[0].bytes);
      IngestForwards(env, s, turns[0].bytes);
      var rest := Leading(turns[1..]);
      assert Leading(turns)[1..] == rest;
      if !Accepts(s'.seen) || (s'.clientDisconnected && s'.handled.completed) {
        k := 1;
        assert Leading(turns)[..1] == [turns[0].bytes];
        assert Flatten([turns[0].bytes]) == turns[0].bytes + Flatten([turns[0].bytes][1..]);
      } else {
        var j := LoopForwards(env, s', turns[1..]);
        k := j + 1;
        assert Leading(turns)[..k] == [turns[0].bytes] + rest[..j];
        assert Leading(turns)[..k][1..] == rest[..j];
      }
    } else {
      k := 0;
    }
  }

  /** What the client gets: the writes in order are a prefix of what was read, all of it when
      none fails, also when the reader overflows or the upstream breaks off; every write but the
      last has at least 1024 bytes; nothing is written after a failed write; and `response_bytes` counts every byte read. */
  lemma ExactForwarding<D>(env: Env<D>, billing: Billing, initial: string, turns: seq<Turn>) returns (k: nat)
    ensures var s := Pump(env, billing, initial, turns);
            && k <= |Leading(turns)| && s.seen == initial + Flatten(Leading(turns)[..k])
            && s.responseBytes == |s.seen|
            && (forall i: nat | i + 1 < |s.writes| :: env.writeOk(i) && |s.writes[i]| >= FLUSH_BYTES)
            && Flatten(s.writes) <= s.seen
            && ((forall i: nat | i < |s.writes| :: env.writeOk(i)) ==>
                  && Flatten(s.writes) == s.seen
                  && (k < |Leading(turns)| ==> !Accepts(s.seen)))
  {
    hide Accepts, Ingest, Loop, Flatten, Leading;
    EmptyAccepted();
    StartForwards(env, billing);
    var s := BeforeLoop(env, billing, initial);
    assert "" + initial == initial;
    assert Leading(turns)[..0] == [] && initial + "" == initial;
    if initial != "" {
      IngestForwards(env, Start(billing), initial);
    }
    assert s.seen == initial;
    var t := s;
    k := 0;
    if Accepts(s.seen) {
      k := LoopForwards(env, s, turns);
      t := Loop(env, s, turns);
    }
    FlushForwards(env, t);
  }

  lemma StartForwards<D>(env: Env<D>, billing: Billing)
    ensures ForwardInv(env, Start(billing)) && Flatten([]) == ""
  {
  }

  lemma FlushForwards<D>(env: Env<D>, t: PumpState)
    requires ForwardInv(env, t)
    ensures var s := FinalFlush(t);
            && (forall i: nat | i + 1 < |s.writes| :: env.writeOk(i) && |s.writes[i]| >= FLUSH_BYTES)
            && Flatten(s.writes) <= s.seen
            && ((forall i: nat | i < |s.writes| :: env.writeOk(i)) ==>
                  !t.clientDisconnected && Flatten(s.writes) == s.seen)
  {
    hide Flatten;
    FlattenSnoc(t.writes, t.pending);
  }

  /** What is billed: the events handled are those the batch parser finds in the accepted
      bytes, so a chunk the reader rejects contributes none of its events. */
  lemma {:induction false} LoopHandles<D>(env: Env<D>, s: PumpState, turns: seq<Turn>) returns (good: string)
    requires Accepts(s.seen)
    ensures var t := Loop(env, s, turns);
            && s.seen <= good <= t.seen && Accepts(good) && Events(s.seen) <= Events(good)
            && t.handled == HandleAll(env.gateway, s.handled, Events(good)[|Events(s.seen)|..])
            && (Accepts(t.seen) ==> good == t.seen)
    decreases |turns|
  {
    hide Accepts, Events, Forward, HandleAll;
    good := s.seen;
    assert Events(good)[|Events(s.seen)|..] == [];
    HandleNone(env.gateway, s.handled);
    if turns != [] && turns[0].Chunk? {
      var s' := Ingest(env, s, turns[0].bytes);
      IngestSeen(env, s, turns[0].bytes);
      if Accepts(s'.seen) {
        AcceptsPrefix(s.seen, turns[0].bytes);
        good := s'.seen;
        if !(s'.clientDisconnected && s'.handled.completed) {
          good := LoopHandles(env, s', turns[1..]);
          var a, b, c := Events(s.seen), Events(s'.seen), Events(good);
          HandleAllAppend(env.gateway, s.handled, b[|a|..], c[|b|..]);
          assert b[|a|..] + c[|b|..] == c[|a|..];
        }
      }
    }
  }

  lemma HandleNone<D>(g: Gateway<D>, h: Handled)
    ensures HandleAll(g, h, []) == h
  {
  }

  lemma IngestSeen<D>(env: Env<D>, s: PumpState, bytes: string)
    ensures var s' := Ingest(env, s, bytes);
            && s'.seen == s.seen + bytes && s'.idleTimeout == s.idleTimeout
            && (s'.upstreamError <==> s.upstreamError || !Accepts(s.seen + bytes))
            && (Accepts(s.seen + bytes) ==>
                  s'.handled == HandleAll(env.gateway, s.handled, NewEvents(s.seen, bytes)))
            && (!Accepts(s.seen + bytes) ==> s'.handled == s.handled)
  {
    hide Accepts, HandleAll;
  }

  lemma HandledIsBatch<D>(env: Env<D>, billing: Billing, initial: string, turns: seq<Turn>) returns (good: string)
    ensures var s := Pump(env, billing, initial, turns);
            && good <= s.seen && Accepts(good) && (Accepts(s.seen) ==> good == s.seen)
            && s.handled == HandleAll(env.gateway, Start(billing).handled, Events(good))
            && s.handled.billing == Record(env.gateway, billing, Events(good))
            && s.handled.model == LastModel(env.gateway, None, Events(good))
  {
    hide Accepts, Forward, Loop, HandleAll, Events, Record, LastModel;
    EmptyAccepted();
    NoEvents();
    HandleNone(env.gateway, Start(billing).handled);
    var s := BeforeLoop(env, billing, initial);
    good := "";
    if initial != "" {
      IngestSeen(env, Start(billing), initial);
      assert "" + initial == initial;
    }
    if Accepts(s.seen) {
      good := LoopHandles(env, s, turns);
      var a, b := Events(s.seen), Events(good);
      HandleAllAppend(env.gateway, Start(billing).handled, a, b[|a|..]);
      assert a + b[|a|..] == b;
      assert a[0..] == a;
    }
    HandleAllRecords(env.gateway, Start(billing).handled, Events(good));
  }

  lemma NoEvents()
    ensures Events("") == []
  {
  }
}
