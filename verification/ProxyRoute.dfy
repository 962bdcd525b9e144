/** The non-stream route end to end (`backend/src/server/http_dispatch.cpp`): balance gate,
    failover, usage commit; and what a request costs whose every attempt failed. */
module ProxyRoute {
  import opened Text
  import opened Database
  import opened UsageLog
  import opened Ledger
  import opened Store
  import Failover
  import StreamPump

  /** The token and cost columns filed under one key; nothing filed counts as zero. */
  function Columns(totals: map<TotalId, Total>, key: TotalId): Total {
    (if key in totals then totals[key] else ZeroTotal()).(requests := 0, firstTokenLatencySum := 0)
  }

  function WithUsage(call: ProxyCall, usage: StreamPump.Usage): ProxyCall {
    call.(request := call.request.(
      inputTokens := usage.inputTokens,
      outputTokens := usage.outputTokens,
      cacheReadTokens := usage.cacheReadTokens,
      cacheCreation1hTokens := usage.cacheCreation1hTokens,
      cacheCreation5mTokens := usage.cacheCreation5mTokens))
  }

  /** `finish_proxy_usage`: nothing is committed unless some channel was asked. */
  function FinishUsage(db: Db, call: ProxyCall, now: string): Db {
    if call.channelId <= 0 then db else CommitUsage(db, call, now).0
  }

  /** A request without usage costs nothing: no balance moves, and no token or cost column of
      any total moves; at most a row of zeros is logged. */
  lemma NoUsageCostsNothing(db: Db, call: ProxyCall, now: string)
    requires NoUsage(call.request)
    ensures
      var db' := FinishUsage(db, call, now);
      && db'.users == db.users && db'.tokens == db.tokens && db'.groups == db.groups
      && (forall k :: Columns(db'.totals, k) == Columns(db.totals, k))
      && (db'.rows == db.rows ||
          (|db'.rows| == |db.rows| + 1 && db'.rows[..|db.rows|] == db.rows &&
           db'.rows[|db.rows|].usd == 0.0 && NoUsage(db'.rows[|db.rows|])))
  {
    hide ComputeUsd, Trim;
    NoUsageNoCost(call.pricing, call.request, call.tierMultiplier, call.channelMultiplier);
    assert CostOf(call) == 0.0;
    assert Debit(db, call.request.userId, 0.0) == (db, true);
  }

  /** A commit goes through exactly when the ids are there and the balance covers the cost;
      otherwise nothing changes, so a served request the balance cannot cover is not logged. */
  lemma CommitUsageExactly(db: Db, call: ProxyCall, now: string)
    ensures var (db', ok) := CommitUsage(db, call, now);
            && (ok <==> Billable(call) &&
                        (CostOf(call) <= 0.0 ||
                         (call.request.userId in db.users && CostOf(call) <= db.users[call.request.userId].balanceUsd)))
            && (!ok ==> db' == db)
  {
    hide CostOf, RoundMicros, Trim;
  }

  /** A negative cost is logged and takes nothing: the debit of less than nothing succeeds. */
  lemma NegativeCostLogged(db: Db, call: ProxyCall, now: string)
    requires Billable(call) && CostOf(call) < 0.0 && !HasId(db.rows, call.request.id)
    ensures var (db', ok) := CommitUsage(db, call, now);
            && ok && db'.users == db.users
            && |db'.rows| == |db.rows| + 1 && db'.rows[|db.rows|].usd == CostOf(call)
  {
    hide CostOf, Trim;
  }

  /** A million tokens at a dollar over a channel with multiplier -1: a row of minus one dollar. */
  lemma NegativeMultiplier(db: Db, now: string)
    requires !HasId(db.rows, 1)
    ensures var request := Request(1, "2025-01-01 00:00:00", "", 1, 1, 0, 1000000, 0, 0, 0, 0, 0, 0.0);
            var call := ProxyCall(request, 1, Pricing(1.0, 0.0, 0.0, 0.0, 0.0), 1.0, -1.0);
            var (db', ok) := CommitUsage(db, call, now);
            && ok && db'.users == db.users
            && |db'.rows| == |db.rows| + 1 && db'.rows[|db.rows|].usd == -1.0
  {
    hide CommitUsage;
    var request := Request(1, "2025-01-01 00:00:00", "", 1, 1, 0, 1000000, 0, 0, 0, 0, 0, 0.0);
    var call := ProxyCall(request, 1, Pricing(1.0, 0.0, 0.0, 0.0, 0.0), 1.0, -1.0);
    assert CostOf(call) == -1.0;
    NegativeCostLogged(db, call, now);
  }

  // ---------------------------------------------------------------------------------
  // What a request without streaming comes to, from its inputs
  // ---------------------------------------------------------------------------------

  datatype Served = InsufficientBalance | Replied(reply: Failover.Reply)

  predicate HasBalance(db: Db, userId: int) {
    userId in db.users && db.users[userId].balanceUsd > 0.0
  }

  /** The candidates of a stored group, in the order they are asked. */
  function Asked(kind: Failover.Kind, group: Failover.StoredGroup): seq<nat>
    requires group.channels != []
    ensures forall i | 0 <= i < |Asked(kind, group)| :: Asked(kind, group)[i] < |group.channels|
  {
    var c := Failover.Candidates(kind, group.channels, Failover.StartOf(group));
    assert forall i | 0 <= i < |c| :: c[i] < |group.channels| by {
      Failover.CandidatesExact(kind, group.channels, Failover.StartOf(group));
      assert forall i | 0 <= i < |c| :: c[i] in c;
    }
    c
  }

  /** Balance gate, group, rotation: the reply. */
  function ServedBy(db: Db, userId: int, kind: Failover.Kind, stored: Option<Failover.StoredGroup>,
                    ask: nat -> Failover.Outcome, remember: Failover.Outcome -> Failover.Failure): Served
  {
    if !HasBalance(db, userId) then InsufficientBalance
    else if !Failover.Usable(stored) then Replied(Failover.GroupUnavailable)
    else Replied(Failover.ReplyOf(Asked(kind, stored.value), ask, remember))
  }

  /** The pricing a won channel brings. */
  datatype Tariff = Tariff(pricing: Pricing, tierMultiplier: real, channelMultiplier: real)

  function WithTariff(call: ProxyCall, t: Tariff): ProxyCall {
    call.(pricing := t.pricing, tierMultiplier := t.tierMultiplier, channelMultiplier := t.channelMultiplier)
  }

  /** The call that is committed: a won one with the usage of its answer and its tariff, a failed
      one without usage under the channel asked last. */
  function Finished(call: ProxyCall, channels: seq<Failover.Channel>, c: seq<nat>, ask: nat -> Failover.Outcome,
                    usageOf: string -> StreamPump.Usage, tariff: nat -> Tariff): ProxyCall
    requires c != [] && forall i | 0 <= i < |c| :: c[i] < |channels|
  {
    var n := Failover.FirstSuccess(c, ask);
    if n < |c| then
      WithTariff(WithUsage(call, usageOf(ask(c[n]).body)), tariff(c[n])).(channelId := channels[c[n]].id)
    else call.(channelId := channels[c[|c| - 1]].id)
  }

  function AfterServing(db: Db, call: ProxyCall, kind: Failover.Kind, stored: Option<Failover.StoredGroup>,
                        ask: nat -> Failover.Outcome, usageOf: string -> StreamPump.Usage, tariff: nat -> Tariff,
                        now: string): Db
  {
    if !HasBalance(db, call.request.userId) || !Failover.Usable(stored) then db
    else
      var c := Asked(kind, stored.value);
      if c == [] then db
      else FinishUsage(db, Finished(call, stored.value.channels, c, ask, usageOf, tariff), now)
  }

  /** A request no channel served leaves every balance and every token and cost column as it was. A
      row of zeros is logged, under the channel asked last, exactly if one was asked and ids are
      there and new. */
  lemma UnservedCostsNothing(db: Db, call: ProxyCall, kind: Failover.Kind, stored: Option<Failover.StoredGroup>,
                             ask: nat -> Failover.Outcome, remember: Failover.Outcome -> Failover.Failure,
                             usageOf: string -> StreamPump.Usage, tariff: nat -> Tariff, now: string)
    requires NoUsage(call.request)
    requires var served := ServedBy(db, call.request.userId, kind, stored, ask, remember);
             !(served.Replied? && served.reply.Won?)
    ensures var db' := AfterServing(db, call, kind, stored, ask, usageOf, tariff, now);
            && db'.users == db.users && db'.tokens == db.tokens
            && (forall k :: Columns(db'.totals, k) == Columns(db.totals, k))
            && var r := call.request;
               if ServedBy(db, r.userId, kind, stored, ask, remember).Replied? && Failover.Usable(stored) &&
                  Asked(kind, stored.value) != [] && r.id > 0 && r.userId > 0 && r.tokenId > 0 && !HasId(db.rows, r.id) &&
                  LastAsked(kind, stored.value).id > 0 then
                 && |db'.rows| == |db.rows| + 1 && db'.rows[..|db.rows|] == db.rows
                 && NoUsage(db'.rows[|db.rows|]) && db'.rows[|db.rows|].usd == 0.0
                 && db'.rows[|db.rows|].channelId == LastAsked(kind, stored.value).id
               else db' == db
  {
    hide Asked, FinishUsage, Columns, HasId;
    if HasBalance(db, call.request.userId) && Failover.Usable(stored) && Asked(kind, stored.value) != [] {
      var c := Asked(kind, stored.value);
      var failed := Finished(call, stored.value.channels, c, ask, usageOf, tariff);
      NoUsageCostsNothing(db, failed, now);
      FinishedZero(db, failed, now);
    }
  }

  /** The last of the candidates. */
  function LastAsked(kind: Failover.Kind, group: Failover.StoredGroup): Failover.Channel
    requires group.channels != [] && Asked(kind, group) != []
  {
    group.channels[Asked(kind, group)[|Asked(kind, group)| - 1]]
  }

  lemma FinishedZero(db: Db, call: ProxyCall, now: string)
    requires NoUsage(call.request)
    ensures var db' := FinishUsage(db, call, now);
            if Billable(call) && !HasId(db.rows, call.request.id) then
              |db'.rows| == |db.rows| + 1 && db'.rows[|db.rows|].channelId == call.channelId
            else db' == db
  {
    hide ComputeUsd, Trim, HasId, ApplyTotal;
    NoUsageNoCost(call.pricing, call.request, call.tierMultiplier, call.channelMultiplier);
    assert CostOf(call) == 0.0;
    assert Debit(db, call.request.userId, 0.0) == (db, true);
  }

  /** What is replied, on the tables, the stored group and the answers. */
  lemma ReplyExactly(db: Db, userId: int, kind: Failover.Kind, stored: Option<Failover.StoredGroup>,
                     ask: nat -> Failover.Outcome, remember: Failover.Outcome -> Failover.Failure)
    ensures
      var served := ServedBy(db, userId, kind, stored, ask, remember);
      var upstream := if kind == Failover.AnthropicMessages then "anthropic" else "openai_compatible";
      if userId !in db.users || db.users[userId].balanceUsd <= 0.0 then served == InsufficientBalance
      else if stored.None? || !stored.value.enabled || stored.value.channels == [] then
        served == Replied(Failover.GroupUnavailable)
      else
        var channels, p := stored.value.channels, stored.value.pointer;
        && served.Replied?
        && (served.reply == Failover.NoChannel <==>
              forall i | 0 <= i < |channels| ::
                !(channels[i].enabled && channels[i].kind == upstream && channels[i].apiKey != ""))
        && (served.reply.Won? <==>
              exists i :: 0 <= i < |channels| &&
                channels[i].enabled && channels[i].kind == upstream && channels[i].apiKey != "" &&
                ask(i).Answered? && ask(i).status < 400)
        && ((0 <= p < |channels| && channels[p].enabled && channels[p].kind == upstream && channels[p].apiKey != "" &&
             ask(p).Answered? && ask(p).status < 400) ==>
              served.reply == Failover.Won(p))
  {
    hide Failover.Candidates, Failover.ReplyOf;
    if HasBalance(db, userId) && Failover.Usable(stored) {
      var channels, start := stored.value.channels, Failover.StartOf(stored.value);
      Failover.ServedWhateverOrder(kind, channels, start, ask, remember);
      if channels[start].enabled && channels[start].kind == (if kind == Failover.AnthropicMessages then "anthropic" else "openai_compatible")
         && channels[start].apiKey != "" && ask(start).Answered? && ask(start).status < 400 {
        Failover.PointerFirst(kind, channels, start, ask, remember);
      }
    }
  }

  /** A new user is active, and is served from the first credit on. */
  lemma NewUserMustPay(db: Db, profile: Profile, amount: real, kind: Failover.Kind, stored: Option<Failover.StoredGroup>,
                       ask: nat -> Failover.Outcome, remember: Failover.Outcome -> Failover.Failure)
    requires amount > 0.0
    ensures
      var id, db' := db.lastUserId + 1, CreateUser(db, NewUser(profile));
      && id in db'.users && db'.users[id].status == 1
      && ServedBy(db', id, kind, stored, ask, remember) == InsufficientBalance
      && var read := db'.users[id];
         var credited := UpdateUser(db', id, read.(balanceUsd := read.balanceUsd + amount)).0;
         credited.users[id].balanceUsd == amount && ServedBy(credited, id, kind, stored, ask, remember) != InsufficientBalance
  {
  }

  /** The counts and the money of a recorded answer. */
  ghost predicate Records(row: Request, usage: StreamPump.Usage, t: Tariff) {
    && row.inputTokens == usage.inputTokens && row.outputTokens == usage.outputTokens
    && row.cacheReadTokens == usage.cacheReadTokens
    && row.cacheCreation1hTokens == usage.cacheCreation1hTokens
    && row.cacheCreation5mTokens == usage.cacheCreation5mTokens
    && row.usd == ComputeUsd(t.pricing, row, t.tierMultiplier, t.channelMultiplier)
  }

  /** A priced row is filed: it is added, its user pays for it, and the total of its day grows, exactly
      if its ids are there and the balance covers it; otherwise nothing changes. */
  ghost predicate Filed(db: Db, db': Db, row: Request) {
    row.userId in db.users &&
    var balance := db.users[row.userId].balanceUsd;
    if row.id > 0 && row.userId > 0 && row.tokenId > 0 && row.channelId > 0 && row.usd <= balance then
      && |db'.rows| == |db.rows| + 1 && db'.rows[..|db.rows|] == db.rows && db'.rows[|db.rows|] == row
      && row.userId in db'.users
      && db'.users[row.userId].balanceUsd == (if row.usd > 0.0 then RoundMicros(balance - row.usd) else balance)
      && (row.date != "" ==>
            var key := TotalId(row.userId, row.tokenId, row.date);
            && key in db'.totals
            && Grown(if key in db.totals then db.totals[key] else ZeroTotal(), db'.totals[key], row))
    else db' == db
  }

  /** A served request is recorded with the counts of the answer that won, what they cost by the
      tariff of the channel that gave it, and that channel, exactly if its ids are there and the
      balance covers the cost; the balance falls by the cost and the day's total grows by the row. */
  lemma ServedIsRecorded(db: Db, call: ProxyCall, kind: Failover.Kind, stored: Option<Failover.StoredGroup>,
                         ask: nat -> Failover.Outcome, remember: Failover.Outcome -> Failover.Failure,
                         usageOf: string -> StreamPump.Usage, tariff: nat -> Tariff, now: string)
    returns (row: Request)
    requires !HasId(db.rows, call.request.id)
    requires ServedBy(db, call.request.userId, kind, stored, ask, remember).Replied?
    requires ServedBy(db, call.request.userId, kind, stored, ask, remember).reply.Won?
    ensures
      var i, userId := ServedBy(db, call.request.userId, kind, stored, ask, remember).reply.index, call.request.userId;
      && stored.Some? && i < |stored.value.channels| && ask(i).Answered?
      && Records(row, usageOf(ask(i).body), tariff(i)) && row.channelId == stored.value.channels[i].id
      && row.id == call.request.id && row.userId == userId && row.tokenId == call.request.tokenId
      && row.time == (if Trim(call.request.time) != "" then Trim(call.request.time) else now)
      && row.date == (if |call.request.time| >= 10 then call.request.time[..10]
                      else if call.request.time != "" then call.request.time
                      else if |row.time| >= 10 then row.time[..10] else "")
      && Filed(db, AfterServing(db, call, kind, stored, ask, usageOf, tariff, now), row)
  {
    hide Asked, HasId, ComputeUsd, Filed, FinishUsage, CostOf, Trim;
    var c := Asked(kind, stored.value);
    var n := Failover.FirstSuccess(c, ask);
    assert n < |c| && ServedBy(db, call.request.userId, kind, stored, ask, remember).reply.index == c[n];
    row := FinishedIsRecorded(db, Finished(call, stored.value.channels, c, ask, usageOf, tariff), now);
  }

  /** The same for a finished call with what it costs by its own tariff. */
  lemma FinishedIsRecorded(db: Db, won: ProxyCall, now: string) returns (row: Request)
    requires !HasId(db.rows, won.request.id) && HasBalance(db, won.request.userId)
    ensures
      && row == won.request.(time := row.time, date := row.date, channelId := won.channelId, usd := row.usd)
      && row.usd == ComputeUsd(won.pricing, row, won.tierMultiplier, won.channelMultiplier)
      && row.time == (if Trim(won.request.time) != "" then Trim(won.request.time) else now)
      && row.date == (if |won.request.time| >= 10 then won.request.time[..10]
                      else if won.request.time != "" then won.request.time
                      else if |row.time| >= 10 then row.time[..10] else "")
      && Filed(db, FinishUsage(db, won, now), row)
  {
    hide Trim, Stamped, RoundMicros, HasId, ComputeUsd, Commit, Grown;
    row := Stamped(Priced(won), won.request.time, now);
    RowOf(won, now);
    if Billable(won) && CostOf(won) <= db.users[won.request.userId].balanceUsd {
      var charged := Debit(db, won.request.userId, CostOf(won)).0;
      CommitStores(charged, Priced(won), won.request.time, now);
      CommitAddsStamped(charged, Priced(won), won.request.time, now);
    }
  }

  /** The row of a call: its request with time and date set, its channel and its price. */
  lemma RowOf(call: ProxyCall, now: string)
    ensures var row := Stamped(Priced(call), call.request.time, now);
            && row == call.request.(time := row.time, date := row.date, channelId := call.channelId, usd := CostOf(call))
            && row.time == (if Trim(call.request.time) != "" then Trim(call.request.time) else now)
            && row.date == (if |call.request.time| >= 10 then call.request.time[..10]
                            else if call.request.time != "" then call.request.time
                            else if |row.time| >= 10 then row.time[..10] else "")
            && ComputeUsd(call.pricing, row, call.tierMultiplier, call.channelMultiplier) == CostOf(call)
  {
    hide Trim;
  }

  lemma CommitAddsStamped(db: Db, r: Request, finishedAt: string, now: string)
    requires r.id > 0 && r.userId > 0 && r.tokenId > 0 && !HasId(db.rows, r.id)
    ensures var db' := Commit(db, r, finishedAt, now).0;
            |db'.rows| == |db.rows| + 1 && db'.rows[|db.rows|] == Stamped(r, finishedAt, now)
  {
    hide Stamped, ApplyTotal;
  }

  lemma LastAttempt(candidates: seq<nat>, ask: nat -> Failover.Outcome, remember: Failover.Outcome -> Failover.Failure,
                    attempts: seq<nat>, reply: Failover.Reply)
    requires Failover.Scheduled(candidates, ask, remember, attempts, reply)
    ensures reply == Failover.ReplyOf(candidates, ask, remember)
    ensures candidates == [] <==> attempts == []
    ensures candidates == [] ==> reply == Failover.NoChannel
    ensures candidates != [] ==>
              var n := Failover.FirstSuccess(candidates, ask);
              && (reply.Won? <==> n < |candidates|)
              && attempts[|attempts| - 1] == candidates[if n < |candidates| then n else |candidates| - 1]
              && (reply.Won? ==> reply.index == candidates[n])
              && (reply.Won? && n > 0 ==> |attempts| > 1 && attempts[..|attempts| - 1][|attempts| - 2] == candidates[n - 1])
              && (reply.Won? && n == 0 ==> |attempts| == 1)
  {
    Failover.ScheduledExactly(candidates, ask, remember, attempts, reply);
  }

  /** Chat completions and messages. */
  method ServeNonStream(store: Store, gateway: Failover.Gateway, stored: Option<Failover.StoredGroup>,
                        ask: nat -> Failover.Outcome, call: ProxyCall, tariff: nat -> Tariff, now: string)
    returns (served: Served)
    requires store.Valid()
    requires gateway.usage == Failover.NO_USAGE && gateway.channelId == 0
    requires NoUsage(call.request) && call.channelId == 0
    modifies store, gateway
    ensures store.Valid()
    ensures served == ServedBy(old(store.View()), call.request.userId, gateway.kind, stored, ask, Failover.PlainFailure)
    ensures store.View() ==
              AfterServing(old(store.View()), call, gateway.kind, stored, ask, gateway.usageOf, tariff, now)
  {
    hide Failover.Scheduled, Failover.Candidates, CommitUsage;
    var userId := call.request.userId;
    if userId !in store.users || store.users[userId].balanceUsd <= 0.0 {
      return InsufficientBalance;
    }
    var group := gateway.LoadChannelGroup(stored);
    if group == null {
      return Replied(Failover.GroupUnavailable);
    }
    var reply, attempts := gateway.Run(group, ask);
    LastAttempt(Asked(gateway.kind, stored.value), ask, Failover.PlainFailure, attempts, reply);
    served := Replied(reply);
    var finished := WithUsage(call, gateway.usage).(channelId := gateway.channelId);
    if reply.Won? {
      finished := WithTariff(finished, tariff(reply.index));
    }
    if finished.channelId > 0 {
      var _ := store.CommitProxyUsage(finished, now);
    }
  }

  /** Responses without streaming. */
  method ServeResponses(store: Store, gateway: Failover.Gateway, stored: Option<Failover.StoredGroup>,
                        ask: nat -> Failover.Outcome, call: ProxyCall, tariff: nat -> Tariff, now: string)
    returns (served: Served)
    requires store.Valid()
    requires gateway.usage == Failover.NO_USAGE && gateway.channelId == 0 && gateway.billNonStream
    requires NoUsage(call.request) && call.channelId == 0
    modifies store, gateway
    ensures store.Valid()
    ensures served == ServedBy(old(store.View()), call.request.userId, gateway.kind, stored, ask, Failover.VerboseFailure)
    ensures store.View() ==
              AfterServing(old(store.View()), call, gateway.kind, stored, ask, gateway.usageOf, tariff, now)
  {
    hide Failover.Scheduled, Failover.Candidates, CommitUsage;
    var userId := call.request.userId;
    if userId !in store.users || store.users[userId].balanceUsd <= 0.0 {
      return InsufficientBalance;
    }
    var group := gateway.LoadChannelGroup(stored);
    if group == null {
      return Replied(Failover.GroupUnavailable);
    }
    var reply, streaming, attempts := gateway.Handle(group, ask, false);
    LastAttempt(Asked(gateway.kind, stored.value), ask, Failover.VerboseFailure, attempts, reply);
    served := Replied(reply);
    var finished := WithUsage(call, gateway.usage).(channelId := gateway.channelId);
    if reply.Won? {
      finished := WithTariff(finished, tariff(reply.index));
    }
    if finished.channelId > 0 {
      var _ := store.CommitProxyUsage(finished, now);
    }
  }

  // ---------------------------------------------------------------------------------
  // Counting input tokens
  // ---------------------------------------------------------------------------------

  /** A call without usage that names a channel is logged exactly if its ids are there and new. */
  lemma ZeroRowLogged(db: Db, call: ProxyCall, now: string)
    requires NoUsage(call.request)
    ensures var db' := CommitUsage(db, call, now).0;
            && (|db'.rows| == |db.rows| + 1 <==> Billable(call) && !HasId(db.rows, call.request.id))
            && ((Billable(call) && !HasId(db.rows, call.request.id)) || db' == db)
  {
    hide ComputeUsd, Trim, HasId;
    NoUsageNoCost(call.pricing, call.request, call.tierMultiplier, call.channelMultiplier);
    assert CostOf(call) == 0.0;
    assert Debit(db, call.request.userId, 0.0) == (db, true);
  }

  /** What counting input tokens leaves: nothing if no channel failed, otherwise the commit of a
      call without usage under the last channel that did. */
  function AfterCounting(db: Db, call: ProxyCall, kind: Failover.Kind, stored: Option<Failover.StoredGroup>,
                         ask: nat -> Failover.Outcome, now: string): Db
  {
    if !HasBalance(db, call.request.userId) || !Failover.Usable(stored) then db
    else
      var c := Asked(kind, stored.value);
      var n := Failover.FirstSuccess(c, ask);
      if n == 0 then db else FinishUsage(db, call.(channelId := stored.value.channels[c[n - 1]].id), now)
  }

  /** The balance allows the request, and the first channel that is asked fails. */
  predicate FirstFails(db: Db, userId: int, kind: Failover.Kind, stored: Option<Failover.StoredGroup>,
                       ask: nat -> Failover.Outcome)
  {
    HasBalance(db, userId) && Failover.Usable(stored) &&
    var c := Asked(kind, stored.value);
    c != [] && !Failover.Succeeds(ask(c[0]))
  }

  /** The design says counting never logs a row. It logs one exactly when the first channel asked
      fails, a row of zeros under the last channel that failed. */
  lemma CountingLogsExactly(db: Db, call: ProxyCall, kind: Failover.Kind, stored: Option<Failover.StoredGroup>,
                            ask: nat -> Failover.Outcome, now: string)
    requires NoUsage(call.request)
    requires call.request.id > 0 && call.request.userId > 0 && call.request.tokenId > 0 && !HasId(db.rows, call.request.id)
    requires stored.Some? ==> forall i | 0 <= i < |stored.value.channels| :: stored.value.channels[i].id > 0
    ensures
      var db' := AfterCounting(db, call, kind, stored, ask, now);
      && db'.users == db.users
      && if FirstFails(db, call.request.userId, kind, stored, ask) then
           var c := Asked(kind, stored.value);
           && |db'.rows| == |db.rows| + 1 && db'.rows[..|db.rows|] == db.rows
           && NoUsage(db'.rows[|db.rows|]) && db'.rows[|db.rows|].usd == 0.0
           && db'.rows[|db.rows|].channelId ==
                stored.value.channels[c[Failover.FirstSuccess(c, ask) - 1]].id
         else db' == db
  {
    hide Asked, ComputeUsd, Trim, HasId, ApplyTotal;
    if FirstFails(db, call.request.userId, kind, stored, ask) {
      var c := Asked(kind, stored.value);
      var n := Failover.FirstSuccess(c, ask);
      var named := call.(channelId := stored.value.channels[c[n - 1]].id);
      NoUsageNoCost(named.pricing, named.request, named.tierMultiplier, named.channelMultiplier);
      assert CostOf(named) == 0.0;
      assert Debit(db, named.request.userId, 0.0) == (db, true);
    }
  }

  /** Two channels; the first fails, the second answers: a row of zeros under the first. */
  lemma CountingLogsARow(db: Db, call: ProxyCall, now: string)
    requires NoUsage(call.request) && call.request.tokenId > 0
    requires call.request.id > 0 && !HasId(db.rows, call.request.id)
    requires call.request.userId > 0 && HasBalance(db, call.request.userId)
    ensures
      var a, b := Failover.Channel(1, "openai_compatible", true, "a"), Failover.Channel(2, "openai_compatible", true, "b");
      var stored := Some(Failover.StoredGroup(true, [a, b], 0));
      var ask := (i: nat) => Failover.Answered(if i == 0 then 500 else 200, "", false);
      var db' := AfterCounting(db, call, Failover.OpenaiResponses, stored, ask, now);
      && ServedBy(db, call.request.userId, Failover.OpenaiResponses, stored, ask, Failover.VerboseFailure)
           == Replied(Failover.Won(1))
      && |db'.rows| == |db.rows| + 1 && db'.rows[|db.rows|].channelId == 1 && db'.rows[|db.rows|].usd == 0.0
  {
    hide AfterCounting, HasId, Failover.Candidates;
    var a, b := Failover.Channel(1, "openai_compatible", true, "a"), Failover.Channel(2, "openai_compatible", true, "b");
    var group := Failover.StoredGroup(true, [a, b], 0);
    var ask := (i: nat) => Failover.Answered(if i == 0 then 500 else 200, "", false);
    CountingLogsExactly(db, call, Failover.OpenaiResponses, Some(group), ask, now);
    Failover.BothEligible(Failover.OpenaiResponses, a, b);
    assert Asked(Failover.OpenaiResponses, group) == [0, 1];
    assert Failover.FirstSuccess([0, 1], ask) == 1 by {
      assert [0, 1][1..] == [1];
    }
  }

  /** `/v1/responses/input_tokens` */
  method ServeInputTokens(store: Store, gateway: Failover.Gateway, stored: Option<Failover.StoredGroup>,
                          ask: nat -> Failover.Outcome, call: ProxyCall, now: string)
    returns (served: Served)
    requires store.Valid() && gateway.channelId == 0 && !gateway.billNonStream
    requires NoUsage(call.request) && call.channelId == 0
    modifies store, gateway
    ensures store.Valid()
    ensures served == ServedBy(old(store.View()), call.request.userId, gateway.kind, stored, ask, Failover.VerboseFailure)
    ensures store.View() == AfterCounting(old(store.View()), call, gateway.kind, stored, ask, now)
  {
    hide Failover.Scheduled, Failover.Candidates, CommitUsage;
    var userId := call.request.userId;
    if userId !in store.users || store.users[userId].balanceUsd <= 0.0 {
      return InsufficientBalance;
    }
    var group := gateway.LoadChannelGroup(stored);
    if group == null {
      return Replied(Failover.GroupUnavailable);
    }
    var reply, streaming, attempts := gateway.Handle(group, ask, false);
    LastAttempt(Asked(gateway.kind, stored.value), ask, Failover.VerboseFailure, attempts, reply);
    served := Replied(reply);
    var finished := call.(channelId := gateway.channelId);
    if finished.channelId > 0 {
      var _ := store.CommitProxyUsage(finished, now);
    }
  }
}
