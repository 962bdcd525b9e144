/** Money: balances against credits and debits, and charged cost against recorded cost
    (`backend/src/users/users.cpp`, `backend/src/proxy/gateway.cpp`, `backend/src/request/request.cpp`). */
module Ledger {
  import opened Text
  import opened Database
  import opened UsageLog

  const HALF_MICRO: real := 0.0000005

  predicate IsMicros(x: real) {
    (x * 1000000.0).Floor as real == x * 1000000.0
  }

  function Abs(x: real): real {
    if x < 0.0 then -x else x
  }

  // ---------------------------------------------------------------------------------
  // Rounding
  // ---------------------------------------------------------------------------------

  /** Printing with six decimals moves a value by at most half a millionth. */
  lemma RoundMicrosNear(x: real)
    ensures IsMicros(RoundMicros(x)) && Abs(RoundMicros(x) - x) <= HALF_MICRO
    ensures x >= 0.0 ==> RoundMicros(x) >= 0.0
    ensures IsMicros(x) ==> RoundMicros(x) == x
  {
    var scaled := x * 1000000.0;
    var floor := scaled.Floor;
    var rest := scaled - floor as real;
    assert 0.0 <= rest < 1.0;
    var micros := if rest < 0.5 || (rest == 0.5 && floor % 2 == 0) then floor else floor + 1;
    WholeMicros(micros);
    assert Abs(micros as real - scaled) <= 0.5;
  }

  lemma WholeMicros(n: int)
    ensures n as real / 1000000.0 * 1000000.0 == n as real && IsMicros(n as real / 1000000.0)
  {
    var x := n as real / 1000000.0;
    assert x * 1000000.0 == n as real;
    assert (n as real).Floor == n;
  }

  /** Which charges are free: exactly those that round away, under half a millionth or half of
      one on an even balance. */
  lemma FreeDebitExactly(balance: real, delta: real)
    requires IsMicros(balance) && 0.0 < delta <= balance
    ensures RoundMicros(balance - delta) == balance <==>
              delta < HALF_MICRO || (delta == HALF_MICRO && (balance * 1000000.0).Floor % 2 == 0)
  {
    var micros := (balance * 1000000.0).Floor;
    var scaled := (balance - delta) * 1000000.0;
    assert scaled == micros as real - delta * 1000000.0;
    if delta <= HALF_MICRO {
      assert scaled.Floor == micros - 1;
    } else {
      RoundMicrosNear(balance - delta);
    }
  }

  // ---------------------------------------------------------------------------------
  // Balances
  // ---------------------------------------------------------------------------------

  /** What has happened to one user's balance so far. */
  datatype Account = Account(credited: real, debited: real, debits: nat)

  ghost predicate AccountOk(balance: real, a: Account) {
    && balance >= 0.0 && IsMicros(balance)
    && Abs(balance - (a.credited - a.debited)) <= a.debits as real * HALF_MICRO
  }

  ghost predicate BalanceInv(users: map<int, User>, accounts: map<int, Account>) {
    users.Keys == accounts.Keys && forall u | u in users :: AccountOk(users[u].balanceUsd, accounts[u])
  }

  /** One debit: refused without a trace when the balance is short, otherwise the balance
      stays non-negative and the drift grows by at most half a millionth. */
  lemma DebitKeepsBalance(db: Db, accounts: map<int, Account>, userId: int, delta: real)
    requires BalanceInv(db.users, accounts)
    ensures var (db', ok) := Debit(db, userId, delta);
            && (ok <==> delta <= 0.0 || (userId in db.users && delta <= db.users[userId].balanceUsd))
            && (!ok || delta <= 0.0 ==> db' == db)
            && (ok && delta > 0.0 ==>
                  && db' == db.(users := db'.users) && db'.users.Keys == db.users.Keys
                  && (forall u | u in db.users && u != userId :: db'.users[u] == db.users[u])
                  && db'.users[userId].status == db.users[userId].status
                  && BalanceInv(db'.users, accounts[userId := Debited(accounts[userId], delta)]))
  {
    var (db', ok) := Debit(db, userId, delta);
    if ok && delta > 0.0 {
      assert AccountOk(db.users[userId].balanceUsd, accounts[userId]);
      RoundMicrosNear(db.users[userId].balanceUsd - delta);
    }
  }

  function Debited(a: Account, delta: real): Account {
    a.(debited := a.debited + delta, debits := a.debits + 1)
  }

  function Credited(a: Account, amount: real): Account {
    a.(credited := a.credited + amount)
  }

  /** A handler reads a user, then writes it back with `amount` added. The difference between
      the balance and the books moves by exactly what happened in between, so the handler is
      correct exactly when the balance it read is still the stored one. */
  lemma WriteBackDrift(db: Db, accounts: map<int, Account>, userId: int, read: User, amount: real)
    requires BalanceInv(db.users, accounts) && userId in db.users
    ensures var db' := UpdateUser(db, userId, read.(balanceUsd := read.balanceUsd + amount)).0;
            var a, a' := accounts[userId], Credited(accounts[userId], amount);
            var drift := db.users[userId].balanceUsd - (a.credited - a.debited);
            var drift' := db'.users[userId].balanceUsd - (a'.credited - a'.debited);
            && drift' - drift == read.balanceUsd - db.users[userId].balanceUsd
            && (drift' == drift <==> read.balanceUsd == db.users[userId].balanceUsd)
  {
  }

  /** A debit between the read and the write of a credit is lost: the balance is the one read
      plus the credit, as if nothing had been charged. */
  lemma LostDebit(db: Db, userId: int, delta: real, amount: real)
    requires userId in db.users && 0.0 < delta <= db.users[userId].balanceUsd
    ensures var read := db.users[userId];
            var (charged, paid) := Debit(db, userId, delta);
            var db' := UpdateUser(charged, userId, read.(balanceUsd := read.balanceUsd + amount)).0;
            && paid && charged.users[userId].balanceUsd == RoundMicros(read.balanceUsd - delta)
            && db'.users[userId].balanceUsd == read.balanceUsd + amount
            && db' == UpdateUser(db, userId, read.(balanceUsd := read.balanceUsd + amount)).0
  {
    hide RoundMicros;
  }

  lemma WriteBackKeepsBalance(db: Db, accounts: map<int, Account>, userId: int, read: User, amount: real)
    requires BalanceInv(db.users, accounts) && userId in db.users
    requires read.balanceUsd == db.users[userId].balanceUsd && amount >= 0.0 && IsMicros(amount)
    ensures var db' := UpdateUser(db, userId, read.(balanceUsd := read.balanceUsd + amount)).0;
            BalanceInv(db'.users, accounts[userId := Credited(accounts[userId], amount)])
  {
    assert AccountOk(db.users[userId].balanceUsd, accounts[userId]);
    var sum := read.balanceUsd + amount;
    assert sum * 1000000.0 == read.balanceUsd * 1000000.0 + amount * 1000000.0;
    assert (sum * 1000000.0).Floor == (read.balanceUsd * 1000000.0).Floor + (amount * 1000000.0).Floor;
  }

  // ---------------------------------------------------------------------------------
  // Conservation
  // ---------------------------------------------------------------------------------

  lemma SumUsdSnoc(rows: seq<Request>, r: Request)
    ensures SumUsd(rows + [r]) == SumUsd(rows) + r.usd
  {
    assert (rows + [r])[..|rows|] == rows;
  }

  lemma {:induction false} SumUsdRemove(rows: seq<Request>, i: nat)
    requires i < |rows|
    ensures SumUsd(rows[..i] + rows[i + 1..]) == SumUsd(rows) - rows[i].usd
  {
    var init, last := rows[..|rows| - 1], rows[|rows| - 1];
    if i == |init| {
      assert rows[..i] + rows[i + 1..] == init;
    } else {
      SumUsdRemove(init, i);
      assert rows[..i] + rows[i + 1..] == init[..i] + init[i + 1..] + [last];
      SumUsdSnoc(init[..i] + init[i + 1..], last);
    }
  }

  /** The rows `Without` removes. */
  function Dropped(rows: seq<Request>, drop: Request -> bool): seq<Request> {
    if rows == [] then []
    else
      Dropped(rows[..|rows| - 1], drop) +
      (if drop(rows[|rows| - 1]) then [rows[|rows| - 1]] else [])
  }

  /** Deleted rows take their cost with them, no more and no less. */
  lemma {:induction false} SumUsdSplit(rows: seq<Request>, drop: Request -> bool)
    ensures SumUsd(rows) == SumUsd(Without(rows, drop)) + SumUsd(Dropped(rows, drop))
  {
    if rows != [] {
      var init, last := rows[..|rows| - 1], rows[|rows| - 1];
      SumUsdSplit(init, drop);
      SumUsdSnoc(Without(init, drop), last);
      SumUsdSnoc(Dropped(init, drop), last);
      assert Without(init, drop) + [] == Without(init, drop);
      assert Dropped(init, drop) + [] == Dropped(init, drop);
    }
  }

  /** Money taken from balances for requests, the requests not yet recorded, and the cost of
      rows since deleted. */
  datatype Books = Books(charged: real, inflight: seq<Request>, erased: real)

  /** Charged equals recorded plus still to be recorded. */
  ghost predicate Conserved(rows: seq<Request>, b: Books) {
    b.charged == SumUsd(rows) + b.erased + SumUsd(b.inflight)
  }

  function Charge(b: Books, r: Request): Books {
    b.(charged := b.charged + (if r.usd > 0.0 then r.usd else 0.0), inflight := b.inflight + [r])
  }

  function Recorded(b: Books, i: nat): Books
    requires i < |b.inflight|
  {
    b.(inflight := b.inflight[..i] + b.inflight[i + 1..])
  }

  /** The debit half conserves money exactly for costs that are not negative. */
  lemma ChargeConserves(rows: seq<Request>, b: Books, r: Request)
    requires Conserved(rows, b)
    ensures Conserved(rows, Charge(b, r)) <==> r.usd >= 0.0
  {
    SumUsdSnoc(b.inflight, r);
  }

  /** The record half conserves money exactly when the id is new or the cost is zero: a
      duplicate id is reported as success without a row. */
  lemma RecordConserves(db: Db, b: Books, i: nat, finishedAt: string, now: string)
    requires Conserved(db.rows, b) && i < |b.inflight|
    requires var r := b.inflight[i]; r.id > 0 && r.userId > 0 && r.tokenId > 0
    ensures var (db', ok) := Commit(db, b.inflight[i], finishedAt, now);
            ok && (Conserved(db'.rows, Recorded(b, i)) <==>
                   !HasId(db.rows, b.inflight[i].id) || b.inflight[i].usd == 0.0)
  {
    SumUsdRemove(b.inflight, i);
    SumUsdSnoc(db.rows, Stamped(b.inflight[i], finishedAt, now));
  }

  /** Two requests of a dollar with one id: both were charged, the second record reports success,
      and one dollar is nowhere in the log. */
  lemma DuplicateIdUnrecorded(r: Request, finishedAt: string, now: string)
    requires r.id > 0 && r.userId > 0 && r.tokenId > 0 && r.usd == 1.0
    ensures var db, b := EMPTY.(rows := [r]), Books(2.0, [r], 0.0);
            var (db', ok) := Commit(db, r, finishedAt, now);
            && Conserved(db.rows, b)
            && ok && db' == db && !Conserved(db'.rows, Recorded(b, 0))
  {
    var none: seq<Request> := [];
    SumUsdSnoc(none, r);
    assert none + [r] == [r];
    assert [r][..0] + [r][1..] == none;
    assert EMPTY.(rows := [r]).rows[0].id == r.id;
  }

  // ---------------------------------------------------------------------------------
  // Cost of a request
  // ---------------------------------------------------------------------------------

  datatype Pricing = Pricing(input: real, output: real, cacheRead: real, cacheCreation1h: real, cacheCreation5m: real)

  /** `compute_usd` on the token counts of a request. */
  function ComputeUsd(p: Pricing, r: Request, tierMultiplier: real, channelMultiplier: real): real {
    ListPrice(p, r) / 1000000.0 * tierMultiplier * channelMultiplier
  }

  function ListPrice(p: Pricing, r: Request): real {
    p.input * r.inputTokens as real + p.output * r.outputTokens as real +
    p.cacheRead * r.cacheReadTokens as real + p.cacheCreation1h * r.cacheCreation1hTokens as real +
    p.cacheCreation5m * r.cacheCreation5mTokens as real
  }

  /** The multipliers are not checked, so a cost is not negative exactly when nothing was used
      or the two multipliers have one sign. */
  lemma CostSignExactly(p: Pricing, r: Request, tierMultiplier: real, channelMultiplier: real)
    requires ListPrice(p, r) >= 0.0
    ensures ComputeUsd(p, r, tierMultiplier, channelMultiplier) >= 0.0 <==>
              ListPrice(p, r) == 0.0 || tierMultiplier * channelMultiplier >= 0.0
  {
    hide ListPrice;
    var base, m := ListPrice(p, r) / 1000000.0, tierMultiplier * channelMultiplier;
    Reassociate(base, tierMultiplier, channelMultiplier);
    ProductSign(base, m);
  }

  /** What `docs/proxy-request-unified-design.md` promises: nothing for a multiplier that is not
      positive. */
  function GuardedUsd(p: Pricing, r: Request, tierMultiplier: real, channelMultiplier: real): real {
    if tierMultiplier <= 0.0 || channelMultiplier <= 0.0 then 0.0
    else ComputeUsd(p, r, tierMultiplier, channelMultiplier)
  }

  /** The promise is kept exactly for positive multipliers, and where the product is zero anyway. */
  lemma GuardKeptExactly(p: Pricing, r: Request, tierMultiplier: real, channelMultiplier: real)
    ensures
      ComputeUsd(p, r, tierMultiplier, channelMultiplier) == GuardedUsd(p, r, tierMultiplier, channelMultiplier) <==>
      || (tierMultiplier > 0.0 && channelMultiplier > 0.0)
      || tierMultiplier == 0.0 || channelMultiplier == 0.0 || ListPrice(p, r) == 0.0
  {
    hide ListPrice;
    var price := ListPrice(p, r) / 1000000.0;
    ProductZero(price, tierMultiplier);
    ProductZero(price * tierMultiplier, channelMultiplier);
  }

  lemma ProductZero(a: real, b: real)
    ensures a * b == 0.0 <==> a == 0.0 || b == 0.0
  {
    if a * b == 0.0 && b != 0.0 {
      assert a == a * b / b;
    }
  }

  lemma Reassociate(a: real, b: real, c: real)
    ensures a * b * c == a * (b * c)
  {
  }

  lemma ProductSign(a: real, m: real)
    requires a >= 0.0
    ensures a * m >= 0.0 <==> a == 0.0 || m >= 0.0
  {
  }

  predicate NoUsage(r: Request) {
    && r.inputTokens == 0 && r.outputTokens == 0 && r.cacheReadTokens == 0
    && r.cacheCreation1hTokens == 0 && r.cacheCreation5mTokens == 0
  }

  lemma NoUsageNoCost(p: Pricing, r: Request, tierMultiplier: real, channelMultiplier: real)
    requires NoUsage(r)
    ensures ComputeUsd(p, r, tierMultiplier, channelMultiplier) == 0.0
  {
    assert p.input * 0.0 == 0.0 && p.output * 0.0 == 0.0 && p.cacheRead * 0.0 == 0.0;
    assert 0.0 * tierMultiplier == 0.0;
    assert 0.0 * channelMultiplier == 0.0;
  }

  /** What a token costs: `n` more of one kind raise the cost by `n` times the price of that kind per
      million, times both multipliers. With `NoUsageNoCost` this fixes every cost. */
  lemma UsageRaisesCost(p: Pricing, r: Request, n: int, tierMultiplier: real, channelMultiplier: real)
    ensures
      var cost := ComputeUsd(p, r, tierMultiplier, channelMultiplier);
      var more := (r': Request) => ComputeUsd(p, r', tierMultiplier, channelMultiplier) - cost;
      var times := n as real / 1000000.0 * (tierMultiplier * channelMultiplier);
      && more(r.(inputTokens := r.inputTokens + n)) == p.input * times
      && more(r.(outputTokens := r.outputTokens + n)) == p.output * times
      && more(r.(cacheReadTokens := r.cacheReadTokens + n)) == p.cacheRead * times
      && more(r.(cacheCreation1hTokens := r.cacheCreation1hTokens + n)) == p.cacheCreation1h * times
      && more(r.(cacheCreation5mTokens := r.cacheCreation5mTokens + n)) == p.cacheCreation5m * times
  {
    hide ComputeUsd, ListPrice;
    ListPriceRises(p, r, n);
    var a, b := tierMultiplier, channelMultiplier;
    CostRises(p, r, r.(inputTokens := r.inputTokens + n), p.input, n, a, b);
    CostRises(p, r, r.(outputTokens := r.outputTokens + n), p.output, n, a, b);
    CostRises(p, r, r.(cacheReadTokens := r.cacheReadTokens + n), p.cacheRead, n, a, b);
    CostRises(p, r, r.(cacheCreation1hTokens := r.cacheCreation1hTokens + n), p.cacheCreation1h, n, a, b);
    CostRises(p, r, r.(cacheCreation5mTokens := r.cacheCreation5mTokens + n), p.cacheCreation5m, n, a, b);
  }

  lemma ListPriceRises(p: Pricing, r: Request, n: int)
    ensures ListPrice(p, r.(inputTokens := r.inputTokens + n)) == ListPrice(p, r) + p.input * n as real
    ensures ListPrice(p, r.(outputTokens := r.outputTokens + n)) == ListPrice(p, r) + p.output * n as real
    ensures ListPrice(p, r.(cacheReadTokens := r.cacheReadTokens + n)) == ListPrice(p, r) + p.cacheRead * n as real
    ensures ListPrice(p, r.(cacheCreation1hTokens := r.cacheCreation1hTokens + n)) ==
              ListPrice(p, r) + p.cacheCreation1h * n as real
    ensures ListPrice(p, r.(cacheCreation5mTokens := r.cacheCreation5mTokens + n)) ==
              ListPrice(p, r) + p.cacheCreation5m * n as real
  {
    Distribute(p.input, r.inputTokens, n);
    Distribute(p.output, r.outputTokens, n);
    Distribute(p.cacheRead, r.cacheReadTokens, n);
    Distribute(p.cacheCreation1h, r.cacheCreation1hTokens, n);
    Distribute(p.cacheCreation5m, r.cacheCreation5mTokens, n);
  }

  lemma Distribute(price: real, tokens: int, n: int)
    ensures price * (tokens + n) as real == price * tokens as real + price * n as real
  {
    assert (tokens + n) as real == tokens as real + n as real;
  }

  lemma CostRises(p: Pricing, r: Request, r': Request, price: real, n: int, a: real, b: real)
    requires ListPrice(p, r') == ListPrice(p, r) + price * n as real
    ensures ComputeUsd(p, r', a, b) - ComputeUsd(p, r, a, b) == price * (n as real / 1000000.0 * (a * b))
  {
    hide ListPrice;
    var base, more := ListPrice(p, r) / 1000000.0, price * n as real / 1000000.0;
    assert ListPrice(p, r') / 1000000.0 == base + more;
    Reassociate(base, a, b);
    Reassociate(more, a, b);
    Reassociate(base + more, a, b);
    DistributeOver(base, more, a * b);
    Reassociate(price, n as real / 1000000.0, a * b);
    assert more == price * (n as real / 1000000.0);
  }

  lemma DistributeOver(x: real, y: real, m: real)
    ensures (x + y) * m == x * m + y * m
  {
  }

  /** A million input tokens, half a million output tokens, and the cached ones, at two multipliers. */
  lemma CostExample(r: Request)
    requires r.inputTokens == 1000000 && r.outputTokens == 500000 && r.cacheReadTokens == 250000
    requires r.cacheCreation1hTokens == 100000 && r.cacheCreation5mTokens == 50000
    ensures ComputeUsd(Pricing(1.0, 2.0, 0.5, 0.25, 0.125), r, 1.2, 1.5) == 3.88125
  {
    var p := Pricing(1.0, 2.0, 0.5, 0.25, 0.125);
    assert ListPrice(p, r) == 2156250.0;
  }
}
