/** What a pumped stream bills (`backend/src/proxy/gateway.cpp`): independence of how the bytes
    arrive, and two runs over the same upstream, one whose client may drop at any write and one
    whose client stays. */
module StreamBilling {
  import opened Text
  import opened SseReader
  import opened StreamPump

  /** The billing rule of the streaming route, for an upstream status below 400. */
  predicate Billed(s: PumpState) {
    s.handled.completed && !s.upstreamError && !s.idleTimeout && s.handled.sawUsage
  }

  function Connected<D>(env: Env<D>): Env<D> {
    env.(writeOk := (_: nat) => true)
  }

  /** Everything but the client side. */
  function Core(s: PumpState): PumpState {
    s.(clientDisconnected := false, pending := "", writes := [])
  }

  /** The turns left unread when the loop stops because the client is gone and the answer
      complete; `None` when it stops for another reason. */
  ghost function EarlyRest<D>(env: Env<D>, s: PumpState, turns: seq<Turn>): Option<seq<Turn>>
    decreases |turns|
  {
    if turns == [] || !turns[0].Chunk? then None
    else
      var s' := Ingest(env, s, turns[0].bytes);
      if !Accepts(s'.seen) then None
      else if s'.clientDisconnected && s'.handled.completed then Some(turns[1..])
      else EarlyRest(env, s', turns[1..])
  }

  /** The whole pump: an overflow in the initial body is not an early stop. */
  ghost function Unread<D>(env: Env<D>, billing: Billing, initial: string, turns: seq<Turn>): Option<seq<Turn>> {
    var s := BeforeLoop(env, billing, initial);
    if Accepts(s.seen) then EarlyRest(env, s, turns) else None
  }

  lemma IngestCore<D>(env: Env<D>, s: PumpState, t: PumpState, bytes: string)
    requires Core(s) == Core(t) && !t.clientDisconnected
    ensures var s', t' := Ingest(env, s, bytes), Ingest(Connected(env), t, bytes);
            Core(s') == Core(t') && !t'.clientDisconnected
  {
    hide Accepts, HandleAll;
  }

  /** Step by step the two runs see and handle the same, until one of them stops early; then
      the other is about to read exactly the unread turns. Without an early stop only a
      timeout tells them apart, which a run without a client does not record. */
  lemma {:induction false} Simulation<D>(env: Env<D>, s: PumpState, t: PumpState, turns: seq<Turn>)
    returns (mid: PumpState)
    requires Core(s) == Core(t) && !t.clientDisconnected && Accepts(s.seen)
    ensures
      var S, T := Loop(env, s, turns), Loop(Connected(env), t, turns);
      match EarlyRest(env, s, turns)
      case Some(rest) =>
        && S.clientDisconnected && S.handled.completed && Accepts(S.seen)
        && S.upstreamError == s.upstreamError && S.idleTimeout == s.idleTimeout
        && Core(mid) == Core(S) && !mid.clientDisconnected
        && T == Loop(Connected(env), mid, rest)
      case None =>
        && Core(S).(idleTimeout := T.idleTimeout) == Core(T)
        && (T.idleTimeout <==> S.idleTimeout ||
                               (S.clientDisconnected && Accepts(S.seen) && Terminator(turns) == TimedOut))
    decreases |turns|
  {
    hide Accepts, Ingest;
    mid := t;
    if turns != [] && turns[0].Chunk? {
      var bytes := turns[0].bytes;
      var s', t' := Ingest(env, s, bytes), Ingest(Connected(env), t, bytes);
      IngestCore(env, s, t, bytes);
      IngestSeen(env, s, bytes);
      assert s'.seen == Core(s').seen == Core(t').seen == t'.seen;
      if Accepts(s'.seen) {
        if s'.clientDisconnected && s'.handled.completed {
          mid := t';
        } else {
          mid := Simulation(env, s', t', turns[1..]);
        }
      }
    }
  }

  /** The rest of the upstream ends without an error, a timeout or an oversized event. */
  ghost predicate CleanTail(seen: string, rest: seq<Turn>) {
    Terminator(rest) == End && Accepts(seen + Flatten(Leading(rest)))
  }

  /** An event first completed in the rest carries usage. */
  ghost predicate UsageLater<D>(g: Gateway<D>, seen: string, rest: seq<Turn>)
    requires CleanTail(seen, rest)
  {
    SomeUsage(g, NewEvents(seen, Flatten(Leading(rest))))
  }

  lemma {:induction false} TailOutcome<D>(env: Env<D>, t: PumpState, rest: seq<Turn>)
    requires !t.clientDisconnected && !t.upstreamError && !t.idleTimeout && Accepts(t.seen)
    ensures var T := Loop(Connected(env), t, rest);
            && (T.upstreamError || T.idleTimeout <==> !CleanTail(t.seen, rest))
            && (CleanTail(t.seen, rest) ==> T.seen == t.seen + Flatten(Leading(rest)))
    decreases |rest|
  {
    hide Accepts, Ingest, Flatten, Leading, Terminator, Loop, CleanTail;
    NoTurns();
    LoopOnce(Connected(env), t, rest);
    assert t.seen + "" == t.seen;
    if rest == [] {
      CleanEnd(t.seen);
    } else {
      assert [rest[0]] + rest[1..] == rest;
      CleanTailCons(t.seen, rest[0], rest[1..]);
      TurnsCons(rest[0], rest[1..]);
      if rest[0].Chunk? {
        var bytes := rest[0].bytes;
        var t' := Ingest(Connected(env), t, bytes);
        IngestCore(env, t, t, bytes);
        IngestSeen(Connected(env), t, bytes);
        if Accepts(t'.seen) {
          TailOutcome(env, t', rest[1..]);
          Regroup(t.seen, bytes, Flatten(Leading(rest[1..])));
        }
      }
    }
  }

  lemma Regroup(a: string, b: string, c: string)
    ensures a + (b + c) == a + b + c
  {
  }

  lemma CleanEnd(seen: string)
    requires Accepts(seen)
    ensures CleanTail(seen, [])
  {
    hide Accepts;
    assert seen + "" == seen;
  }

  lemma CleanTailCons(seen: string, turn: Turn, later: seq<Turn>)
    requires Accepts(seen)
    ensures turn.Chunk? ==> (CleanTail(seen, [turn] + later) <==> CleanTail(seen + turn.bytes, later))
    ensures turn.Chunk? && !Accepts(seen + turn.bytes) ==> !CleanTail(seen, [turn] + later)
    ensures !turn.Chunk? ==> (CleanTail(seen, [turn] + later) <==> turn == End)
  {
    hide Accepts, Flatten, Leading, Terminator;
    TurnsCons(turn, later);
    assert seen + "" == seen;
    if turn.Chunk? {
      var more := Flatten(Leading(later));
      assert seen + (turn.bytes + more) == seen + turn.bytes + more;
      if !Accepts(seen + turn.bytes) {
        RejectedForever(seen + turn.bytes, more);
      }
    }
  }

  /** From the point where the early run stops, what the other run makes of the unread turns. */
  lemma AfterEarlyStop<D>(env: Env<D>, mid: PumpState, rest: seq<Turn>)
    requires !mid.clientDisconnected && !mid.upstreamError && !mid.idleTimeout && Accepts(mid.seen)
    requires mid.handled.completed
    ensures var T := Loop(Connected(env), mid, rest);
            && T.handled.completed && mid.seen <= T.seen
            && (Billed(T) <==> CleanTail(mid.seen, rest) &&
                               (mid.handled.sawUsage || UsageLater(env.gateway, mid.seen, rest)))
            && (CleanTail(mid.seen, rest) && !UsageLater(env.gateway, mid.seen, rest) ==>
                  T.handled.billing == mid.handled.billing)
  {
    hide Accepts, Ingest, Loop, HandleAll, Events;
    TailOutcome(env, mid, rest);
    var good := LoopHandles(Connected(env), mid, rest);
    var T := Loop(Connected(env), mid, rest);
    HandleAllMeaning(env.gateway, mid.handled, Events(good)[|Events(mid.seen)|..]);
    if CleanTail(mid.seen, rest) {
      assert good == T.seen == mid.seen + Flatten(Leading(rest));
    }
  }

  /** What the two runs handle: the events `a` of the accepted part `goodS` of what is read when
      the client may drop, and these and then `b` otherwise. The first run reaches the first
      completion if there is one, and the billing records agree as soon as no later event
      carries usage. */
  lemma DisconnectHandles<D>(env: Env<D>, billing: Billing, initial: string, turns: seq<Turn>)
    returns (goodS: string, goodT: string)
    ensures
      var S, T := Pump(env, billing, initial, turns), Pump(Connected(env), billing, initial, turns);
      && S.seen <= T.seen && goodS <= goodT
      && goodS <= S.seen && Accepts(goodS) && (Accepts(S.seen) ==> goodS == S.seen)
      && goodT <= T.seen && Accepts(goodT) && (Accepts(T.seen) ==> goodT == T.seen)
      && (goodS != goodT ==> Unread(env, billing, initial, turns).Some?)
    ensures Events(goodS) <= Events(goodT)
    ensures
      var S, T := Pump(env, billing, initial, turns), Pump(Connected(env), billing, initial, turns);
      var g, start := env.gateway, Start(billing).handled;
      var a, b := Events(goodS), Events(goodT)[|Events(goodS)|..];
      && S.handled == HandleAll(g, start, a) && T.handled == HandleAll(g, start, a + b)
      && (SomeCompletes(g, a) <==> SomeCompletes(g, a + b))
      && (SomeUsage(g, a + b) <==> SomeUsage(g, a) || SomeUsage(g, b))
      && (!SomeUsage(g, b) ==> S.handled.billing == T.handled.billing)
  {
    hide Accepts, Ingest, Loop, Events, HandleAll, SomeCompletes, SomeUsage, EarlyRest, BeforeLoop;
    var g, start := env.gateway, Start(billing).handled;
    goodS := HandledIsBatch(env, billing, initial, turns);
    goodT := goodS;
    HandleNone(g, HandleAll(g, start, Events(goodS)));
    assert Events(goodS)[|Events(goodS)|..] == [];
    var s, t := BothStart(env, billing, initial);
    if Accepts(s.seen) {
      goodT := MoreEvents(env, s, t, turns, goodS);
      CompletedAlike(env, s, t, turns);
    }
    var a, b := Events(goodS), Events(goodT)[|Events(goodS)|..];
    HandleAllAppend(g, start, a, b);
    HandleAllMeaning(g, HandleAll(g, start, a), b);
    HandleAllMeaning(g, start, a);
    HandleAllMeaning(g, start, a + b);
  }

  /** The events only the run that stays handles. */
  lemma MoreEvents<D>(env: Env<D>, s: PumpState, t: PumpState, turns: seq<Turn>, goodS: string)
    returns (goodT: string)
    requires Core(s) == Core(t) && !t.clientDisconnected && Accepts(s.seen)
    requires var S := Loop(env, s, turns);
             goodS <= S.seen && Accepts(goodS) && (Accepts(S.seen) ==> goodS == S.seen)
    ensures
      var S, T := Loop(env, s, turns), Loop(Connected(env), t, turns);
      && S.seen <= T.seen && goodS <= goodT <= T.seen
      && Accepts(goodT) && (Accepts(T.seen) ==> goodT == T.seen)
      && (goodS != goodT ==> EarlyRest(env, s, turns).Some?)
      && Events(goodS) <= Events(goodT)
      && T.handled == HandleAll(env.gateway, S.handled, Events(goodT)[|Events(goodS)|..])
  {
    hide Accepts, Ingest, Loop, Events, HandleAll, EarlyRest;
    var mid := Simulation(env, s, t, turns);
    var S, T := Loop(env, s, turns), Loop(Connected(env), t, turns);
    goodT := goodS;
    HandleNone(env.gateway, S.handled);
    assert Events(goodS)[|Events(goodS)|..] == [];
    if EarlyRest(env, s, turns).Some? {
      assert Core(mid).seen == S.seen && Core(mid).handled == S.handled;
      goodT := LoopHandles(Connected(env), mid, EarlyRest(env, s, turns).value);
    } else {
      assert Core(S).seen == Core(T).seen && Core(S).handled == Core(T).handled;
    }
  }

  lemma CompletedAlike<D>(env: Env<D>, s: PumpState, t: PumpState, turns: seq<Turn>)
    requires Core(s) == Core(t) && !t.clientDisconnected && Accepts(s.seen)
    ensures var S, T := Loop(env, s, turns), Loop(Connected(env), t, turns);
            T.handled.completed ==> S.handled.completed
  {
    hide Accepts, Ingest, Loop, EarlyRest;
    var mid := Simulation(env, s, t, turns);
    var S, T := Loop(env, s, turns), Loop(Connected(env), t, turns);
    if EarlyRest(env, s, turns).None? {
      assert Core(S).handled == Core(T).handled;
    }
  }

  lemma BothStart<D>(env: Env<D>, billing: Billing, initial: string) returns (s: PumpState, t: PumpState)
    ensures s == BeforeLoop(env, billing, initial) && t == BeforeLoop(Connected(env), billing, initial)
    ensures Core(s) == Core(t) && !t.clientDisconnected && s.seen == t.seen == initial
    ensures !s.idleTimeout && (s.upstreamError <==> !Accepts(initial))
    ensures s.clientDisconnected <==> |initial| >= FLUSH_BYTES && !env.writeOk(0)
    ensures Accepts(initial) ==> s.handled == HandleAll(env.gateway, Start(billing).handled, Events(initial))
  {
    hide Accepts, HandleAll, Events;
    EmptyAccepted();
    NoEvents();
    HandleNone(env.gateway, Start(billing).handled);
    s, t := BeforeLoop(env, billing, initial), BeforeLoop(Connected(env), billing, initial);
    if initial != "" {
      IngestCore(env, Start(billing), Start(billing), initial);
      IngestSeen(env, Start(billing), initial);
      assert "" + initial == initial;
      assert Events(initial)[0..] == Events(initial);
    }
  }

  /** A loop that has read a chunk and has not stopped early leaves no dropped client with a
      complete answer, unless the reader rejected the stream. */
  lemma {:induction false} NoLateStop<D>(env: Env<D>, s: PumpState, turns: seq<Turn>)
    requires EarlyRest(env, s, turns).None? && Accepts(s.seen)
    requires (turns != [] && turns[0].Chunk?) || !(s.clientDisconnected && s.handled.completed)
    ensures var S := Loop(env, s, turns);
            Accepts(S.seen) ==> !(S.clientDisconnected && S.handled.completed)
    decreases |turns|
  {
    hide Accepts, Ingest;
    if turns != [] && turns[0].Chunk? {
      var s' := Ingest(env, s, turns[0].bytes);
      if Accepts(s'.seen) {
        NoLateStop(env, s', turns[1..]);
      }
    }
  }

  /** An early stop reads everything but the rest. */
  lemma {:induction false} EarlySeen<D>(env: Env<D>, s: PumpState, turns: seq<Turn>)
    requires EarlyRest(env, s, turns).Some?
    ensures Loop(env, s, turns).seen + Flatten(Leading(EarlyRest(env, s, turns).value)) ==
              s.seen + Flatten(Leading(turns))
    decreases |turns|
  {
    hide Accepts, Ingest, Flatten;
    var bytes, rest := turns[0].bytes, EarlyRest(env, s, turns).value;
    var s' := Ingest(env, s, bytes);
    IngestSeen(env, s, bytes);
    TurnsCons(turns[0], turns[1..]);
    assert [turns[0]] + turns[1..] == turns;
    if !(s'.clientDisconnected && s'.handled.completed) {
      EarlySeen(env, s', turns[1..]);
      assert Loop(env, s, turns) == Loop(env, s', turns[1..]);
    }
    assert s'.seen + Flatten(Leading(turns[1..])) == s.seen + (bytes + Flatten(Leading(turns[1..])));
  }

  /** A run that accepts all it reads and does not stop early reads everything. */
  lemma {:induction false} AllSeen<D>(env: Env<D>, s: PumpState, turns: seq<Turn>)
    requires EarlyRest(env, s, turns).None? && Accepts(s.seen + Flatten(Leading(turns)))
    ensures Loop(env, s, turns).seen == s.seen + Flatten(Leading(turns))
    decreases |turns|
  {
    hide Accepts, Ingest, Flatten, Leading, Loop;
    NoTurns();
    LoopOnce(env, s, turns);
    assert s.seen + "" == s.seen;
    if turns != [] {
      assert [turns[0]] + turns[1..] == turns;
      TurnsCons(turns[0], turns[1..]);
      if turns[0].Chunk? {
        var s' := Ingest(env, s, turns[0].bytes);
        IngestSeen(env, s, turns[0].bytes);
        Regroup(s.seen, turns[0].bytes, Flatten(Leading(turns[1..])));
        AcceptsPrefix(s'.seen, Flatten(Leading(turns[1..])));
        AllSeen(env, s', turns[1..]);
      }
    }
  }

  /** The initial body alone drops the client and completes with usage, and then nothing comes
      until the timeout. */
  ghost predicate DroppedAtStart<D>(env: Env<D>, initial: string, turns: seq<Turn>) {
    && |initial| >= FLUSH_BYTES && !env.writeOk(0) && Accepts(initial)
    && SomeCompletes(env.gateway, Events(initial)) && SomeUsage(env.gateway, Events(initial))
    && turns != [] && turns[0] == TimedOut
  }

  lemma WithoutEarlyStop<D>(env: Env<D>, s: PumpState, h: Handled, initial: string, turns: seq<Turn>)
    requires Accepts(initial) && s.seen == initial && !s.idleTimeout && !s.upstreamError
    requires EarlyRest(env, s, turns).None?
    requires s.clientDisconnected <==> |initial| >= FLUSH_BYTES && !env.writeOk(0)
    requires s.handled == HandleAll(env.gateway, h, Events(initial)) && !h.completed && !h.sawUsage
    ensures var S := Loop(env, s, turns);
            S.clientDisconnected && Terminator(turns) == TimedOut && Accepts(S.seen) && Billed(S) <==>
            DroppedAtStart(env, initial, turns)
  {
    hide Accepts, Ingest, Events, HandleAll, SomeCompletes, SomeUsage, EarlyRest;
    HandleAllMeaning(env.gateway, h, Events(initial));
    if (turns != [] && turns[0].Chunk?) || !(s.clientDisconnected && s.handled.completed) {
      hide Loop;
      NoLateStop(env, s, turns);
    }
  }

  /** Exactly when a client that may drop changes whether the stream is billed. If the run stops
      early, with `rest` unread, they agree exactly when the rest decides nothing: it must end
      cleanly if usage was read before, and must not both end cleanly and bring the first usage
      otherwise. If it does not stop early they agree except for one shape of initial body. */
  lemma DisconnectBilling<D>(env: Env<D>, billing: Billing, initial: string, turns: seq<Turn>)
    ensures
      var S, T := Pump(env, billing, initial, turns), Pump(Connected(env), billing, initial, turns);
      match Unread(env, billing, initial, turns)
      case Some(rest) =>
        && Accepts(S.seen)
        && (Billed(S) <==> SomeUsage(env.gateway, Events(S.seen)))
        && (Billed(S) == Billed(T) <==>
              if SomeUsage(env.gateway, Events(S.seen)) then CleanTail(S.seen, rest)
              else !(CleanTail(S.seen, rest) && UsageLater(env.gateway, S.seen, rest)))
      case None =>
        && S.handled == T.handled && S.seen == T.seen
        && (Billed(S) == Billed(T) <==> !DroppedAtStart(env, initial, turns))
  {
    hide Accepts, Ingest, Loop, CleanTail, UsageLater, Events, HandleAll, SomeUsage, SomeCompletes, BeforeLoop;
    EmptyAccepted();
    var s, t := BothStart(env, billing, initial);
    if Accepts(s.seen) {
      var mid := Simulation(env, s, t, turns);
      var S, T := Loop(env, s, turns), Loop(Connected(env), t, turns);
      if EarlyRest(env, s, turns).Some? {
        var rest := EarlyRest(env, s, turns).value;
        assert Core(mid).seen == S.seen && Core(mid).handled == S.handled;
        AfterEarlyStop(env, mid, rest);
        var good := HandledIsBatch(env, billing, initial, turns);
        HandleAllMeaning(env.gateway, Start(billing).handled, Events(good));
      } else {
        assert Core(S).seen == Core(T).seen && Core(S).handled == Core(T).handled;
        WithoutEarlyStop(env, s, Start(billing).handled, initial, turns);
      }
    }
  }

  // ---------------------------------------------------------------------------------
  // Independence of the cuts
  // ---------------------------------------------------------------------------------

  /** With a client that stays, a stream is billable only if it ends cleanly, and then the
      handled events are those of the batch parser on all its bytes. */
  lemma ConnectedOutcome<D>(env: Env<D>, billing: Billing, initial: string, turns: seq<Turn>)
    ensures
      var S := Pump(Connected(env), billing, initial, turns);
      && (S.upstreamError || S.idleTimeout <==> !CleanTail(initial, turns))
      && (CleanTail(initial, turns) ==>
            S.handled == HandleAll(env.gateway, Start(billing).handled, Events(initial + Flatten(Leading(turns)))))
  {
    hide Accepts, Ingest, Loop, HandleAll, Events;
    EmptyAccepted();
    var s := BeforeLoop(Connected(env), billing, initial);
    if initial != "" {
      IngestSeen(Connected(env), Start(billing), initial);
      IngestCore(env, Start(billing), Start(billing), initial);
    }
    assert s.seen == initial;
    if Accepts(initial) {
      TailOutcome(env, s, turns);
    } else {
      RejectedForever(initial, Flatten(Leading(turns)));
    }
    var good := HandledIsBatch(Connected(env), billing, initial, turns);
  }

  /** A round that brings bytes: it is readable, if that is asked, and there is something to read. */
  predicate Delivers(usePoll: bool, r: Round) {
    (usePoll ==> r.poll == Readable) && r.read.Data? && r.read.bytes != ""
  }

  function BytesRead(rounds: seq<Round>): seq<string> {
    seq(|rounds|, i requires 0 <= i < |rounds| => if rounds[i].read.Data? then rounds[i].read.bytes else "")
  }

  /** With a client that stays and a stream within the limits, the two flags say what the first round
      was that brought nothing: a poll that timed out or a read that would have blocked, or a poll
      or a read that failed. */
  lemma FlagsSayHowItEnded<D>(env: Env<D>, billing: Billing, rounds: seq<Round>, n: nat)
    requires n <= |rounds| && forall i | 0 <= i < n :: Delivers(env.usePoll, rounds[i])
    requires n < |rounds| ==> !Delivers(env.usePoll, rounds[n])
    requires Accepts(Flatten(BytesRead(rounds[..n])))
    ensures
      var S := Pump(Connected(env), billing, "", Turns(env.usePoll, rounds));
      var readable := n < |rounds| && (env.usePoll ==> rounds[n].poll == Readable);
      && S.seen == Flatten(BytesRead(rounds[..n]))
      && (S.idleTimeout <==>
            (n < |rounds| && env.usePoll && rounds[n].poll == PollTimeout) || (readable && rounds[n].read == WouldBlock))
      && (S.upstreamError <==>
            (n < |rounds| && env.usePoll && rounds[n].poll == PollError) || (readable && rounds[n].read == ReadError))
  {
    hide Accepts, Flatten, Loop, Ingest, Leading, Terminator, Turns;
    EmptyAccepted();
    var turns := Turns(env.usePoll, rounds);
    TurnsAt(env.usePoll, rounds);
    LeadingTurns(turns, n);
    assert Leading(turns) == BytesRead(rounds[..n]);
    assert "" + Flatten(Leading(turns)) == Flatten(Leading(turns));
    ConnectedFlags(env, Start(billing), turns);
  }

  lemma {:induction false} LeadingTurns(turns: seq<Turn>, n: nat)
    requires n <= |turns| && forall i | 0 <= i < n :: turns[i].Chunk?
    requires n < |turns| ==> !turns[n].Chunk?
    ensures |Leading(turns)| == n && forall i | 0 <= i < n :: Leading(turns)[i] == turns[i].bytes
    ensures Terminator(turns) == if n < |turns| then turns[n] else End
  {
    if n > 0 {
      LeadingTurns(turns[1..], n - 1);
    }
  }

  lemma {:induction false} ConnectedFlags<D>(env: Env<D>, t: PumpState, turns: seq<Turn>)
    requires !t.clientDisconnected && Accepts(t.seen + Flatten(Leading(turns)))
    ensures var T := Loop(Connected(env), t, turns);
            && T.seen == t.seen + Flatten(Leading(turns))
            && (T.idleTimeout <==> t.idleTimeout || Terminator(turns) == TimedOut)
            && (T.upstreamError <==> t.upstreamError || Terminator(turns) == Broken)
    decreases |turns|
  {
    hide Accepts, Ingest, Flatten, Leading, Loop, Terminator;
    NoTurns();
    LoopOnce(Connected(env), t, turns);
    assert t.seen + "" == t.seen;
    if turns != [] {
      assert [turns[0]] + turns[1..] == turns;
      TurnsCons(turns[0], turns[1..]);
      if turns[0].Chunk? {
        var t' := Ingest(Connected(env), t, turns[0].bytes);
        IngestCore(env, t, t, turns[0].bytes);
        IngestSeen(Connected(env), t, turns[0].bytes);
        Regroup(t.seen, turns[0].bytes, Flatten(Leading(turns[1..])));
        AcceptsPrefix(t'.seen, Flatten(Leading(turns[1..])));
        ConnectedFlags(env, t', turns[1..]);
      }
    }
  }

  /** However the worker, the bridge and the read buffer cut the same bytes, the same requests
      are billed and with the same record. */
  lemma CutsInvisible<D>(env: Env<D>, billing: Billing, initial: string, turns: seq<Turn>,
                         initial': string, turns': seq<Turn>)
    requires initial + Flatten(Leading(turns)) == initial' + Flatten(Leading(turns'))
    requires Terminator(turns) == Terminator(turns')
    ensures var S := Pump(Connected(env), billing, initial, turns);
            var T := Pump(Connected(env), billing, initial', turns');
            Billed(S) == Billed(T) && (Billed(S) ==> S.handled == T.handled)
  {
    hide Pump, Accepts, HandleAll, Events;
    ConnectedOutcome(env, billing, initial, turns);
    ConnectedOutcome(env, billing, initial', turns');
  }

  // ---------------------------------------------------------------------------------
  // The rule of `handle`
  // ---------------------------------------------------------------------------------

  /** The responses route bills a stream of its own for usage alone. */
  predicate BilledByHandle(s: PumpState) {
    s.handled.sawUsage
  }

  /** With a client that stays, the two rules agree exactly on streams without usage and on those
      that end cleanly with a complete answer; `good` is the accepted part of the stream. */
  lemma HandleBillsOnUsage<D>(env: Env<D>, billing: Billing, initial: string, turns: seq<Turn>) returns (good: string)
    ensures
      var S := Pump(Connected(env), billing, initial, turns);
      && good <= S.seen && Accepts(good) && (Accepts(S.seen) ==> good == S.seen)
      && (BilledByHandle(S) <==> SomeUsage(env.gateway, Events(good)))
      && (Billed(S) ==> BilledByHandle(S))
      && (Billed(S) == BilledByHandle(S) <==>
            !SomeUsage(env.gateway, Events(good)) ||
            (CleanTail(initial, turns) && SomeCompletes(env.gateway, Events(good))))
  {
    hide Accepts, Events, HandleAll, SomeUsage, SomeCompletes, CleanTail, Pump;
    good := HandledIsBatch(Connected(env), billing, initial, turns);
    ConnectedOutcome(env, billing, initial, turns);
    HandleAllMeaning(env.gateway, Start(billing).handled, Events(good));
  }

  /** With a client that may drop, that rule differs from the one for a client that stays exactly
      if the first usage comes after the pump has given up. */
  lemma HandleDropDiffers<D>(env: Env<D>, billing: Billing, initial: string, turns: seq<Turn>)
    returns (goodS: string, goodT: string)
    ensures
      var S, T := Pump(env, billing, initial, turns), Pump(Connected(env), billing, initial, turns);
      && goodS <= S.seen && Accepts(goodS) && (Accepts(S.seen) ==> goodS == S.seen)
      && goodT <= T.seen && Accepts(goodT) && (Accepts(T.seen) ==> goodT == T.seen)
      && (goodS != goodT ==> Unread(env, billing, initial, turns).Some?)
    ensures Events(goodS) <= Events(goodT)
    ensures
      var S, T := Pump(env, billing, initial, turns), Pump(Connected(env), billing, initial, turns);
      var g, a, b := env.gateway, Events(goodS), Events(goodT)[|Events(goodS)|..];
      && (BilledByHandle(S) <==> SomeUsage(g, a))
      && (BilledByHandle(S) != BilledByHandle(T) <==> !SomeUsage(g, a) && SomeUsage(g, b))
  {
    hide Accepts, Events, HandleAll, SomeUsage, SomeCompletes, Pump, Unread;
    goodS, goodT := DisconnectHandles(env, billing, initial, turns);
    var g, start := env.gateway, Start(billing).handled;
    HandleAllMeaning(g, start, Events(goodS));
    HandleAllMeaning(g, start, Events(goodS) + Events(goodT)[|Events(goodS)|..]);
  }

  /** A stream that breaks off after its usage: `handle` bills it, the other routes do not. */
  lemma BrokenStreamBilled<D>(env: Env<D>, billing: Billing, bytes: string)
    requires Accepts(bytes) && SomeUsage(env.gateway, Events(bytes))
    ensures var S := Pump(Connected(env), billing, "", [Chunk(bytes), Broken]);
            BilledByHandle(S) && !Billed(S)
  {
    hide Accepts, Events, HandleAll, SomeUsage, SomeCompletes, Ingest;
    EmptyAccepted();
    var s := Start(billing);
    IngestCore(env, s, s, bytes);
    IngestSeen(Connected(env), s, bytes);
    assert "" + bytes == bytes && [Chunk(bytes), Broken][1..] == [Broken];
    var s' := Ingest(Connected(env), s, bytes);
    assert Loop(Connected(env), s', [Broken]) == s'.(upstreamError := true);
    var good := HandledIsBatch(Connected(env), billing, "", [Chunk(bytes), Broken]);
    HandleAllMeaning(env.gateway, s.handled, Events(good));
  }

  // ---------------------------------------------------------------------------------
  // A pair of runs that disagree
  // ---------------------------------------------------------------------------------

  /** A gateway for which the text `u` is a usage message and nothing else parses. */
  const GATEWAY: Gateway<int> := Gateway(
    text => if text == "u" then Some(Message(None, None, true, 0)) else None,
    (b: Billing, _) => b)

  const COMMENT: string := ":" + seq(FLUSH_BYTES, _ => 'x')
  const ANSWER: string := COMMENT + "\n" + "data:u\n" + "\n" + "data:[DONE]\n" + "\n"

  lemma {:induction false} NoCr(s: string)
    requires '\r' !in s
    ensures DropCr(s) == s
  {
    if s != "" {
      NoCr(s[..|s| - 1]);
      assert s == s[..|s| - 1] + [s[|s| - 1]];
    }
  }

  lemma AnswerLines()
    ensures Lines(ANSWER) == Cut([COMMENT, "data:u", "", "data:[DONE]", ""], "")
  {
    hide SplitOn, Glue, DropCr;
    var lines: seq<string> := [COMMENT, "data:u", "", "data:[DONE]", ""];
    NoCr(ANSWER);
    GlueFive(lines, '\n');
    assert ANSWER == Glue(lines, '\n') + "";
    SplitOnIsCut(ANSWER, '\n');
    CutUnique(ANSWER, '\n', SplitOn(ANSWER, '\n'), Cut(lines, ""));
  }

  lemma AnswerCuts()
    ensures Blocks(ANSWER) == Cut([[COMMENT, "data:u"], ["data:[DONE]"]], [])
  {
    hide SplitOn, Lines;
    AnswerLines();
    var lines := Lines(ANSWER).closed;
    var first: seq<string>, second: seq<string> := [COMMENT, "data:u"], ["data:[DONE]"];
    var none: seq<string> := [];
    GlueSnoc([first], second, "");
    GlueSnoc([], first, "");
    assert [first] == [] + [first] && [first, second] == [first] + [second];
    assert lines == Glue([first, second], "") + none;
    SplitOnIsCut(lines, "");
    CutUnique(lines, "", SplitOn(lines, ""), Cut([first, second], none));
  }

  lemma GlueFive(p: seq<string>, sep: char)
    requires |p| == 5
    ensures Glue(p, sep) == p[0] + [sep] + p[1] + [sep] + p[2] + [sep] + p[3] + [sep] + p[4] + [sep]
  {
    GlueSnoc(p[..4], p[4], sep);
    GlueSnoc(p[..3], p[3], sep);
    GlueSnoc(p[..2], p[2], sep);
    GlueSnoc(p[..1], p[1], sep);
    GlueSnoc([], p[0], sep);
    assert p == p[..4] + [p[4]] && p[..4] == p[..3] + [p[3]] && p[..3] == p[..2] + [p[2]];
    assert p[..2] == p[..1] + [p[1]] && p[..1] == [] + [p[0]];
  }

  lemma AnswerFields()
    ensures DataValue(COMMENT) == None && DataValue("data:u") == Some("u")
    ensures DataValue("data:[DONE]") == Some("[DONE]")
  {
    FindAt(COMMENT, ':', 0);
    FindAt("data:u", ':', 4);
    FindAt("data:[DONE]", ':', 4);
  }

  lemma AnswerBlocks()
    ensures EventData([COMMENT, "data:u"]) == "u" && EventData(["data:[DONE]"]) == "[DONE]"
    ensures BlockBytes([COMMENT, "data:u"]) == FLUSH_BYTES + 9 && BlockBytes(["data:[DONE]"]) == 12
  {
    hide DataValue, EventData, BlockBytes;
    AnswerFields();
    EventsOfNone();
    OneLine(COMMENT);
    OneLine("data:[DONE]");
    DataStep([COMMENT], "data:u");
    BlockBytesSnoc([COMMENT], "data:u");
    assert [COMMENT] + ["data:u"] == [COMMENT, "data:u"];
  }

  lemma OneLine(line: string)
    ensures EventData([line]) == (match DataValue(line) case None => "" case Some(v) => v)
    ensures BlockBytes([line]) == |line| + 1
  {
    hide DataValue;
    DataStep([], line);
    BlockBytesSnoc([], line);
    assert [] + [line] == [line];
  }

  lemma AnswerEvents()
    ensures Accepts(ANSWER) && Events(ANSWER) == [SseEvent("u", false), SseEvent("[DONE]", true)]
  {
    hide Lines, Blocks, EventData, BlockBytes, EventsOf;
    AnswerLines();
    AnswerCuts();
    AnswerBlocks();
    TrimFixed("u");
    TrimFixed("[DONE]");
    var first: seq<string>, second: seq<string> := [COMMENT, "data:u"], ["data:[DONE]"];
    EventsOfSnoc([], first);
    EventsOfSnoc([first], second);
    assert [] + [first] == [first] && [first] + [second] == [first, second];
    EventsOfNone();
  }

  lemma EventsOfNone()
    ensures EventsOf([]) == [] && BlockBytes([]) == 0 && EventData([]) == ""
  {
  }

  /** A complete answer after which the upstream stays silent: billed if the client has
      dropped, not billed if it stayed, because only then the read timeout counts. */
  lemma DroppedClientIsBilled(billing: Billing)
    ensures var env := Env(GATEWAY, (_: nat) => false, false);
            var turns := [Chunk(ANSWER), TimedOut];
            Billed(Pump(env, billing, "", turns)) && !Billed(Pump(Connected(env), billing, "", turns))
  {
    hide Accepts, Events, CleanTail, UsageLater, Loop, Pump;
    var env := Env(GATEWAY, (_: nat) => false, false);
    var turns := [Chunk(ANSWER), TimedOut];
    AnswerEvents();
    EmptyAccepted();
    AnswerIngested(env, billing);
    assert turns[1..] == [TimedOut];
    DisconnectBilling(env, billing, "", turns);
    assert !CleanTail(ANSWER, [TimedOut]) by {
      TimedOutTail(ANSWER);
    }
    EarlyRestStop(env, Start(billing), turns);
    PumpStop(env, billing, turns);
  }

  lemma TimedOutTail(seen: string)
    ensures !CleanTail(seen, [TimedOut])
  {
  }

  lemma AnswerIngested(env: Env<int>, billing: Billing)
    requires env == Env(GATEWAY, (_: nat) => false, false)
    ensures var s := Ingest(env, Start(billing), ANSWER);
            && s.handled == Handled(true, true, None, billing) && s.clientDisconnected
            && !s.upstreamError && !s.idleTimeout && s.seen == ANSWER && s.pending == ""
  {
    hide Accepts, Events;
    AnswerEvents();
    NoEvents();
    EmptyAccepted();
    assert "" + ANSWER == ANSWER;
    var events := [SseEvent("u", false), SseEvent("[DONE]", true)];
    assert NewEvents("", ANSWER) == events;
    TrimFixed("u");
    var h := Start(billing).handled;
    HandleNone(GATEWAY, h);
    assert events[..1] == [SseEvent("u", false)] && events[..1][..0] == [];
    assert HandleAll(GATEWAY, h, events[..1]) == Handled(false, true, None, billing);
    assert HandleAll(GATEWAY, h, events) == Handled(true, true, None, billing);
  }

  lemma EarlyRestStop<D>(env: Env<D>, s: PumpState, turns: seq<Turn>)
    requires turns != [] && turns[0].Chunk?
    requires var s' := Ingest(env, s, turns[0].bytes);
             Accepts(s'.seen) && s'.clientDisconnected && s'.handled.completed
    ensures EarlyRest(env, s, turns) == Some(turns[1..])
  {
    hide Ingest, Accepts;
  }

  lemma PumpStop<D>(env: Env<D>, billing: Billing, turns: seq<Turn>)
    requires turns != [] && turns[0].Chunk?
    requires var s' := Ingest(env, Start(billing), turns[0].bytes);
             Accepts(s'.seen) && s'.clientDisconnected && s'.handled.completed
    ensures Pump(env, billing, "", turns) == Ingest(env, Start(billing), turns[0].bytes)
  {
    hide Ingest, Accepts;
    EmptyAccepted();
  }
}
