/** Usage summaries (`aggregate_window` and `usage_time_series` in
    `backend/src/server/http_dispatch.cpp`, `channels_page_json` in
    `backend/src/channels/channel_api.cpp`): the parts add up to the whole. */
module UsageAggregates {
  import opened Text

  datatype Row = Row(
    channelId: int,
    inputTokens: int,
    outputTokens: int,
    cacheReadTokens: int,
    cacheCreation5mTokens: int,
    cacheCreation1hTokens: int,
    firstTokenLatencyMs: int,
    latencyMs: int,
    usd: real)

  datatype Column =
    | Requests | Input | Output | CacheRead | CacheCreation | Tokens | Usd | FirstTokenSum
    | FirstTokenSamples | DecodeTokens | DecodeLatency // of the window
    | PlainTokens | Cached | AnyDecodeLatency // of a channel

  /** What one row contributes to a column. */
  function Cell(c: Column, r: Row): real {
    var cacheCreation := r.cacheCreation5mTokens + r.cacheCreation1hTokens;
    var decoded := r.latencyMs > r.firstTokenLatencyMs && r.outputTokens > 0;
    match c
    case Requests => 1.0
    case Input => r.inputTokens as real
    case Output => r.outputTokens as real
    case CacheRead => r.cacheReadTokens as real
    case CacheCreation => cacheCreation as real
    case Tokens => (r.inputTokens + r.outputTokens + r.cacheReadTokens + cacheCreation) as real
    case Usd => r.usd
    case FirstTokenSum => (if r.firstTokenLatencyMs > 0 then r.firstTokenLatencyMs else 0) as real
    case FirstTokenSamples => if r.firstTokenLatencyMs > 0 then 1.0 else 0.0
    case DecodeTokens => (if decoded then r.outputTokens else 0) as real
    case DecodeLatency => (if decoded then r.latencyMs - r.firstTokenLatencyMs else 0) as real
    case PlainTokens => (r.inputTokens + r.outputTokens) as real
    case Cached => (r.cacheReadTokens + cacheCreation) as real
    case AnyDecodeLatency =>
      (if r.latencyMs > r.firstTokenLatencyMs then r.latencyMs - r.firstTokenLatencyMs else 0) as real
  }

  function Sum(c: Column, rows: seq<Row>): real {
    if rows == [] then 0.0 else Sum(c, rows[..|rows| - 1]) + Cell(c, rows[|rows| - 1])
  }

  /** What one row counts for, on its fields. */
  lemma OneRow(r: Row)
    ensures Sum(Requests, [r]) == 1.0 && Sum(Usd, [r]) == r.usd
    ensures Sum(Input, [r]) == r.inputTokens as real && Sum(Output, [r]) == r.outputTokens as real
    ensures Sum(CacheRead, [r]) == r.cacheReadTokens as real
    ensures Sum(CacheCreation, [r]) == (r.cacheCreation5mTokens + r.cacheCreation1hTokens) as real
    ensures Sum(Tokens, [r]) == Sum(PlainTokens, [r]) + Sum(Cached, [r])
    ensures Sum(PlainTokens, [r]) == (r.inputTokens + r.outputTokens) as real
    ensures Sum(Cached, [r]) == (r.cacheReadTokens + r.cacheCreation5mTokens + r.cacheCreation1hTokens) as real
    ensures r.firstTokenLatencyMs > 0 ==>
              Sum(FirstTokenSum, [r]) == r.firstTokenLatencyMs as real && Sum(FirstTokenSamples, [r]) == 1.0
    ensures r.firstTokenLatencyMs <= 0 ==> Sum(FirstTokenSum, [r]) == Sum(FirstTokenSamples, [r]) == 0.0
    ensures r.latencyMs > r.firstTokenLatencyMs ==>
              Sum(AnyDecodeLatency, [r]) == (r.latencyMs - r.firstTokenLatencyMs) as real
    ensures r.latencyMs > r.firstTokenLatencyMs && r.outputTokens > 0 ==>
              && Sum(DecodeTokens, [r]) == r.outputTokens as real
              && Sum(DecodeLatency, [r]) == Sum(AnyDecodeLatency, [r])
    ensures r.latencyMs <= r.firstTokenLatencyMs || r.outputTokens <= 0 ==>
              Sum(DecodeTokens, [r]) == Sum(DecodeLatency, [r]) == 0.0
    ensures r.latencyMs <= r.firstTokenLatencyMs ==> Sum(AnyDecodeLatency, [r]) == 0.0
  {
    forall c ensures Sum(c, [r]) == Cell(c, r) {
      assert [r][..0] == [];
      assert Sum(c, []) == 0.0;
    }
  }

  lemma SumSnoc(c: Column, rows: seq<Row>, i: nat)
    requires i < |rows|
    ensures Sum(c, rows[..i + 1]) == Sum(c, rows[..i]) + Cell(c, rows[i])
  {
    assert rows[..i + 1][..i] == rows[..i];
  }

  // ---------------------------------------------------------------------------------
  // Grouping
  // ---------------------------------------------------------------------------------

  function Of<K(==)>(rows: seq<Row>, keyOf: Row -> Option<K>, key: K): seq<Row> {
    if rows == [] then []
    else
      var last := rows[|rows| - 1];
      Of(rows[..|rows| - 1], keyOf, key) + (if keyOf(last) == Some(key) then [last] else [])
  }

  /** The rows that have a key at all. */
  function Keyed<K>(rows: seq<Row>, keyOf: Row -> Option<K>): seq<Row> {
    if rows == [] then []
    else
      var last := rows[|rows| - 1];
      Keyed(rows[..|rows| - 1], keyOf) + (if keyOf(last).Some? then [last] else [])
  }

  lemma OfSnoc<K>(rows: seq<Row>, keyOf: Row -> Option<K>, key: K, i: nat)
    requires i < |rows|
    ensures Of(rows[..i + 1], keyOf, key) ==
              Of(rows[..i], keyOf, key) + (if keyOf(rows[i]) == Some(key) then [rows[i]] else [])
  {
    assert rows[..i + 1][..i] == rows[..i];
  }

  lemma SumAppend(c: Column, rows: seq<Row>, r: Row)
    ensures Sum(c, rows + [r]) == Sum(c, rows) + Cell(c, r)
  {
    assert (rows + [r])[..|rows|] == rows;
  }

  /** A map holds the sums of the rows of each key, for the listed columns. */
  ghost predicate Grouped<K(!new), M>(rows: seq<Row>, keyOf: Row -> Option<K>, buckets: map<K, M>,
                                      at: (M, Column) -> real, columns: set<Column>)
  {
    && (forall k :: k in buckets <==> Of(rows, keyOf, k) != [])
    && (forall k, c | k in buckets && c in columns :: at(buckets[k], c) == Sum(c, Of(rows, keyOf, k)))
  }

  /** The sum of a column over keys visited one after the other. */
  function SumOver<K(==)>(rows: seq<Row>, keyOf: Row -> Option<K>, keys: seq<K>, c: Column): real {
    if keys == [] then 0.0
    else SumOver(rows, keyOf, keys[..|keys| - 1], c) + Sum(c, Of(rows, keyOf, keys[|keys| - 1]))
  }

  function Count<K(==)>(keys: seq<K>, key: K): nat {
    if keys == [] then 0
    else Count(keys[..|keys| - 1], key) + (if keys[|keys| - 1] == key then 1 else 0)
  }

  lemma {:induction false} SumOverSnoc<K>(rows: seq<Row>, keyOf: Row -> Option<K>, keys: seq<K>, c: Column, i: nat)
    requires i < |rows| && (keyOf(rows[i]).Some? ==> Count(keys, keyOf(rows[i]).value) <= 1)
    ensures SumOver(rows[..i + 1], keyOf, keys, c) == SumOver(rows[..i], keyOf, keys, c) +
              (if keyOf(rows[i]).Some? && Count(keys, keyOf(rows[i]).value) == 1 then Cell(c, rows[i]) else 0.0)
    decreases |keys|
  {
    hide Cell, Sum, Of;
    if keys != [] {
      var init, last := keys[..|keys| - 1], keys[|keys| - 1];
      SumOverSnoc(rows, keyOf, init, c, i);
      OfSnoc(rows, keyOf, last, i);
      SumAppend(c, Of(rows[..i], keyOf, last), rows[i]);
      assert Of(rows[..i], keyOf, last) + [] == Of(rows[..i], keyOf, last);
    }
  }

  lemma SumKeyedSnoc<K>(c: Column, rows: seq<Row>, keyOf: Row -> Option<K>, i: nat)
    requires i < |rows|
    ensures Sum(c, Keyed(rows[..i + 1], keyOf)) ==
              Sum(c, Keyed(rows[..i], keyOf)) + (if keyOf(rows[i]).Some? then Cell(c, rows[i]) else 0.0)
  {
    hide Cell;
    assert rows[..i + 1][..i] == rows[..i];
    SumAppend(c, Keyed(rows[..i], keyOf), rows[i]);
    assert Keyed(rows[..i], keyOf) + [] == Keyed(rows[..i], keyOf);
  }

  /** Visiting every occurring key once counts every keyed row once. */
  lemma {:induction false} SumOverKeys<K(!new)>(rows: seq<Row>, keyOf: Row -> Option<K>, keys: seq<K>, c: Column, n: nat)
    requires n <= |rows|
    requires forall i | 0 <= i < |rows| && keyOf(rows[i]).Some? :: Count(keys, keyOf(rows[i]).value) == 1
    ensures SumOver(rows[..n], keyOf, keys, c) == Sum(c, Keyed(rows[..n], keyOf))
    decreases n
  {
    hide Cell, Count, Of, SumOver;
    if n == 0 {
      SumOverNothing(rows[..0], keyOf, keys, c);
    } else {
      SumOverKeys(rows, keyOf, keys, c, n - 1);
      SumOverSnoc(rows, keyOf, keys, c, n - 1);
      SumKeyedSnoc(c, rows, keyOf, n - 1);
    }
  }

  lemma {:induction false} SumOverNothing<K>(rows: seq<Row>, keyOf: Row -> Option<K>, keys: seq<K>, c: Column)
    requires rows == []
    ensures SumOver(rows, keyOf, keys, c) == 0.0
  {
    if keys != [] {
      SumOverNothing(rows, keyOf, keys[..|keys| - 1], c);
    }
  }

  /** `keys` visits each key of the map once, in whatever order the container iterates. */
  ghost predicate Enumerates<K(!new), M>(keys: seq<K>, buckets: map<K, M>) {
    && (forall k :: k in keys <==> k in buckets)
    && (forall i, j | 0 <= i < j < |keys| :: keys[i] != keys[j])
  }

  lemma {:induction false} CountOnce<K>(keys: seq<K>, key: K)
    requires forall i, j | 0 <= i < j < |keys| :: keys[i] != keys[j]
    ensures Count(keys, key) == if key in keys then 1 else 0
  {
    if keys != [] {
      CountOnce(keys[..|keys| - 1], key);
      assert keys == keys[..|keys| - 1] + [keys[|keys| - 1]];
    }
  }

  lemma {:induction false} OfMember<K>(rows: seq<Row>, keyOf: Row -> Option<K>, i: nat)
    requires i < |rows| && keyOf(rows[i]).Some?
    ensures Of(rows, keyOf, keyOf(rows[i]).value) != []
  {
    if i < |rows| - 1 {
      OfMember(rows[..|rows| - 1], keyOf, i);
    }
  }

  /** The groups add up to the rows that have a key. */
  lemma GroupsAddUp<K(!new), M>(rows: seq<Row>, keyOf: Row -> Option<K>, buckets: map<K, M>,
                                at: (M, Column) -> real, columns: set<Column>, keys: seq<K>, c: Column)
    requires Grouped(rows, keyOf, buckets, at, columns) && Enumerates(keys, buckets) && c in columns
    ensures SumAt(buckets, at, keys, c) == Sum(c, Keyed(rows, keyOf))
  {
    forall i | 0 <= i < |rows| && keyOf(rows[i]).Some? ensures Count(keys, keyOf(rows[i]).value) == 1 {
      OfMember(rows, keyOf, i);
      CountOnce(keys, keyOf(rows[i]).value);
    }
    SumOverKeys(rows, keyOf, keys, c, |rows|);
    assert rows[..|rows|] == rows;
    SumAtIsSumOver(rows, keyOf, buckets, at, columns, keys, c);
  }

  function SumAt<K, M>(buckets: map<K, M>, at: (M, Column) -> real, keys: seq<K>, c: Column): real
    requires forall k | k in keys :: k in buckets
  {
    if keys == [] then 0.0
    else SumAt(buckets, at, keys[..|keys| - 1], c) + at(buckets[keys[|keys| - 1]], c)
  }

  lemma {:induction false} SumAtIsSumOver<K(!new), M>(rows: seq<Row>, keyOf: Row -> Option<K>, buckets: map<K, M>,
                                             at: (M, Column) -> real, columns: set<Column>, keys: seq<K>, c: Column)
    requires Grouped(rows, keyOf, buckets, at, columns) && c in columns
    requires forall k | k in keys :: k in buckets
    ensures SumAt(buckets, at, keys, c) == SumOver(rows, keyOf, keys, c)
  {
    if keys != [] {
      SumAtIsSumOver(rows, keyOf, buckets, at, columns, keys[..|keys| - 1], c);
      assert keys[|keys| - 1] in keys;
    }
  }

  lemma {:induction false} AllKeyed<K>(rows: seq<Row>, keyOf: Row -> Option<K>)
    requires forall i | 0 <= i < |rows| :: keyOf(rows[i]).Some?
    ensures Keyed(rows, keyOf) == rows
  {
    if rows != [] {
      AllKeyed(rows[..|rows| - 1], keyOf);
    }
  }

  // ---------------------------------------------------------------------------------
  // Window and time series
  // ---------------------------------------------------------------------------------

  datatype Window = Window(
    requests: int, inputTokens: int, outputTokens: int, cacheReadTokens: int, cacheCreationTokens: int, tokens: int,
    usd: real, firstTokenSum: int, firstTokenSamples: int, decodeTokens: int, decodeLatencyMs: int)

  const WINDOW_COLUMNS: set<Column> := {
    Requests, Input, Output, CacheRead, CacheCreation, Tokens, Usd, FirstTokenSum,
    FirstTokenSamples, DecodeTokens, DecodeLatency }

  function WindowAt(w: Window, c: Column): real {
    match c
    case Requests => w.requests as real
    case Input => w.inputTokens as real
    case Output => w.outputTokens as real
    case CacheRead => w.cacheReadTokens as real
    case CacheCreation => w.cacheCreationTokens as real
    case Tokens => w.tokens as real
    case Usd => w.usd
    case FirstTokenSum => w.firstTokenSum as real
    case FirstTokenSamples => w.firstTokenSamples as real
    case DecodeTokens => w.decodeTokens as real
    case DecodeLatency => w.decodeLatencyMs as real
    case _ => 0.0
  }

  /** `aggregate_window`; `tokens` is formed from the finished sums. */
  method AggregateWindow(rows: seq<Row>) returns (w: Window)
    ensures forall c | c in WINDOW_COLUMNS :: WindowAt(w, c) == Sum(c, rows)
    ensures w.requests as real == Sum(Requests, rows) && w.usd == Sum(Usd, rows)
    ensures w.inputTokens as real == Sum(Input, rows) && w.outputTokens as real == Sum(Output, rows)
    ensures w.cacheReadTokens as real == Sum(CacheRead, rows) && w.cacheCreationTokens as real == Sum(CacheCreation, rows)
    ensures w.tokens == w.inputTokens + w.outputTokens + w.cacheReadTokens + w.cacheCreationTokens
    ensures w.firstTokenSum as real == Sum(FirstTokenSum, rows)
    ensures w.firstTokenSamples as real == Sum(FirstTokenSamples, rows)
    ensures w.decodeTokens as real == Sum(DecodeTokens, rows) && w.decodeLatencyMs as real == Sum(DecodeLatency, rows)
  {
    var requests, input, output, cacheRead, cacheCreation := 0, 0, 0, 0, 0;
    var firstTokenSum, samples, decodeTokens, decodeLatency := 0, 0, 0, 0;
    var used := 0.0;
    for i := 0 to |rows|
      invariant requests as real == Sum(Requests, rows[..i]) && input as real == Sum(Input, rows[..i])
      invariant output as real == Sum(Output, rows[..i]) && cacheRead as real == Sum(CacheRead, rows[..i])
      invariant cacheCreation as real == Sum(CacheCreation, rows[..i]) && used == Sum(Usd, rows[..i])
      invariant firstTokenSum as real == Sum(FirstTokenSum, rows[..i])
      invariant samples as real == Sum(FirstTokenSamples, rows[..i])
      invariant decodeTokens as real == Sum(DecodeTokens, rows[..i])
      invariant decodeLatency as real == Sum(DecodeLatency, rows[..i])
    {
      hide Sum;
      forall c ensures Sum(c, rows[..i + 1]) == Sum(c, rows[..i]) + Cell(c, rows[i]) {
        SumSnoc(c, rows, i);
      }
      var r := rows[i];
      requests := requests + 1;
      input := input + r.inputTokens;
      output := output + r.outputTokens;
      cacheRead := cacheRead + r.cacheReadTokens;
      cacheCreation := cacheCreation + (r.cacheCreation5mTokens + r.cacheCreation1hTokens);
      used := used + r.usd;
      if r.firstTokenLatencyMs > 0 {
        firstTokenSum := firstTokenSum + r.firstTokenLatencyMs;
        samples := samples + 1;
      }
      if r.latencyMs > r.firstTokenLatencyMs && r.outputTokens > 0 {
        decodeTokens := decodeTokens + r.outputTokens;
        decodeLatency := decodeLatency + (r.latencyMs - r.firstTokenLatencyMs);
      }
    }
    assert rows[..|rows|] == rows;
    TokensAreParts(rows);
    w := Window(requests, input, output, cacheRead, cacheCreation, input + output + cacheRead + cacheCreation, used,
                firstTokenSum, samples, decodeTokens, decodeLatency);
  }

  lemma {:induction false} TokensAreParts(rows: seq<Row>)
    ensures Sum(Tokens, rows) == Sum(Input, rows) + Sum(Output, rows) + Sum(CacheRead, rows) + Sum(CacheCreation, rows)
  {
    if rows != [] {
      TokensAreParts(rows[..|rows| - 1]);
    }
  }

  datatype SeriesTotal = SeriesTotal(
    requests: int, inputTokens: int, outputTokens: int, cacheReadTokens: int, cacheCreationTokens: int, tokens: int,
    usd: real, firstTokenLatencySum: int)

  const SERIES_COLUMNS: set<Column> := { Requests, Input, Output, CacheRead, CacheCreation, Tokens, Usd, FirstTokenSum }

  function SeriesAt(t: SeriesTotal, c: Column): real {
    match c
    case Requests => t.requests as real
    case Input => t.inputTokens as real
    case Output => t.outputTokens as real
    case CacheRead => t.cacheReadTokens as real
    case CacheCreation => t.cacheCreationTokens as real
    case Tokens => t.tokens as real
    case Usd => t.usd
    case FirstTokenSum => t.firstTokenLatencySum as real
    case _ => 0.0
  }

  lemma GroupMore<K(!new), M>(rows: seq<Row>, keyOf: Row -> Option<K>, i: nat, old': map<K, M>, new': map<K, M>,
                        at: (M, Column) -> real, columns: set<Column>)
    requires i < |rows| && Grouped(rows[..i], keyOf, old', at, columns)
    requires keyOf(rows[i]).None? ==> new' == old'
    requires keyOf(rows[i]).Some? ==>
               var k := keyOf(rows[i]).value;
               && k in new' && new' == old'[k := new'[k]]
               && forall c | c in columns ::
                    at(new'[k], c) == (if k in old' then at(old'[k], c) else 0.0) + Cell(c, rows[i])
    ensures Grouped(rows[..i + 1], keyOf, new', at, columns)
  {
    hide Sum, Of, Cell;
    forall k ensures k in new' <==> Of(rows[..i + 1], keyOf, k) != [] {
      OfSnoc(rows, keyOf, k, i);
    }
    forall k, c | k in new' && c in columns ensures at(new'[k], c) == Sum(c, Of(rows[..i + 1], keyOf, k)) {
      OfSnoc(rows, keyOf, k, i);
      SumAppend(c, Of(rows[..i], keyOf, k), rows[i]);
      SumNone(c);
      assert Of(rows[..i], keyOf, k) + [] == Of(rows[..i], keyOf, k);
    }
  }

  lemma SumNone(c: Column)
    ensures Sum(c, []) == 0.0
  {
  }

  /** `usage_time_series`; a row whose time does not parse has no bucket and is skipped. */
  method UsageTimeSeries<K(!new, ==)>(rows: seq<Row>, bucketOf: Row -> Option<K>) returns (buckets: map<K, SeriesTotal>)
    ensures Grouped(rows, bucketOf, buckets, SeriesAt, SERIES_COLUMNS)
    ensures forall k | k in buckets ::
              var own := Of(rows, bucketOf, k);
              && buckets[k].requests as real == Sum(Requests, own) && buckets[k].usd == Sum(Usd, own)
              && buckets[k].inputTokens as real == Sum(Input, own) && buckets[k].outputTokens as real == Sum(Output, own)
              && buckets[k].cacheReadTokens as real == Sum(CacheRead, own)
              && buckets[k].cacheCreationTokens as real == Sum(CacheCreation, own)
              && buckets[k].tokens as real == Sum(Tokens, own)
              && buckets[k].firstTokenLatencySum as real == Sum(FirstTokenSum, own)
  {
    hide Grouped;
    buckets := map[];
    GroupNone(rows[..0], bucketOf, buckets, SeriesAt, SERIES_COLUMNS);
    for i := 0 to |rows|
      invariant Grouped(rows[..i], bucketOf, buckets, SeriesAt, SERIES_COLUMNS)
    {
      var r := rows[i];
      var bucket := bucketOf(r);
      ghost var before := buckets;
      if bucket.Some? {
        var total := if bucket.value in buckets then buckets[bucket.value] else SeriesTotal(0, 0, 0, 0, 0, 0, 0.0, 0);
        var cacheCreation := r.cacheCreation5mTokens + r.cacheCreation1hTokens;
        buckets := buckets[bucket.value := SeriesTotal(
          total.requests + 1,
          total.inputTokens + r.inputTokens,
          total.outputTokens + r.outputTokens,
          total.cacheReadTokens + r.cacheReadTokens,
          total.cacheCreationTokens + cacheCreation,
          total.tokens + (r.inputTokens + r.outputTokens + r.cacheReadTokens + cacheCreation),
          total.usd + r.usd,
          total.firstTokenLatencySum + (if r.firstTokenLatencyMs > 0 then r.firstTokenLatencyMs else 0))];
      }
      GroupMore(rows, bucketOf, i, before, buckets, SeriesAt, SERIES_COLUMNS);
    }
    assert rows[..|rows|] == rows;
    SeriesColumns(rows, bucketOf, buckets);
  }

  lemma SeriesColumns<K(!new)>(rows: seq<Row>, bucketOf: Row -> Option<K>, buckets: map<K, SeriesTotal>)
    requires Grouped(rows, bucketOf, buckets, SeriesAt, SERIES_COLUMNS)
    ensures forall k | k in buckets ::
              var t, own := buckets[k], Of(rows, bucketOf, k);
              && t.requests as real == Sum(Requests, own) && t.usd == Sum(Usd, own)
              && t.inputTokens as real == Sum(Input, own) && t.outputTokens as real == Sum(Output, own)
              && t.cacheReadTokens as real == Sum(CacheRead, own) && t.cacheCreationTokens as real == Sum(CacheCreation, own)
              && t.tokens as real == Sum(Tokens, own) && t.firstTokenLatencySum as real == Sum(FirstTokenSum, own)
  {
    hide Sum, Of;
    forall k, c | k in buckets && c in SERIES_COLUMNS ensures SeriesAt(buckets[k], c) == Sum(c, Of(rows, bucketOf, k)) {
    }
    forall k | k in buckets
      ensures forall c | c in SERIES_COLUMNS :: SeriesAt(buckets[k], c) == Sum(c, Of(rows, bucketOf, k)) {
    }
  }

  lemma GroupNone<K(!new), M>(rows: seq<Row>, keyOf: Row -> Option<K>, buckets: map<K, M>,
                        at: (M, Column) -> real, columns: set<Column>)
    requires rows == [] && buckets == map[]
    ensures Grouped(rows, keyOf, buckets, at, columns)
  {
  }

  /** For any rows and any bucket function the series adds up to the window of the rows that have
      a bucket; in particular, when every time parses, to the window of all rows. */
  lemma SeriesAddsUpToWindow<K(!new)>(rows: seq<Row>, bucketOf: Row -> Option<K>, buckets: map<K, SeriesTotal>,
                                keys: seq<K>, w: Window, c: Column)
    requires Grouped(rows, bucketOf, buckets, SeriesAt, SERIES_COLUMNS) && Enumerates(keys, buckets)
    requires forall c | c in WINDOW_COLUMNS :: WindowAt(w, c) == Sum(c, rows)
    requires c in SERIES_COLUMNS
    ensures SumAt(buckets, SeriesAt, keys, c) == Sum(c, Keyed(rows, bucketOf))
    ensures (forall i | 0 <= i < |rows| :: bucketOf(rows[i]).Some?) ==>
              SumAt(buckets, SeriesAt, keys, c) == WindowAt(w, c)
  {
    GroupsAddUp(rows, bucketOf, buckets, SeriesAt, SERIES_COLUMNS, keys, c);
    if forall i | 0 <= i < |rows| :: bucketOf(rows[i]).Some? {
      AllKeyed(rows, bucketOf);
    }
  }

  // ---------------------------------------------------------------------------------
  // Channels
  // ---------------------------------------------------------------------------------

  datatype ChannelUsage = ChannelUsage(
    requests: int, tokens: int, cachedTokens: int, firstTokenSamples: int, firstTokenLatencySum: int,
    outputTokens: int, decodeLatencySum: int, usd: real)

  const CHANNEL_COLUMNS: set<Column> := {
    Requests, PlainTokens, Cached, FirstTokenSamples, FirstTokenSum, Output, AnyDecodeLatency, Usd }

  const NO_USAGE := ChannelUsage(0, 0, 0, 0, 0, 0, 0, 0.0)

  function UsageAt(u: ChannelUsage, c: Column): real {
    match c
    case Requests => u.requests as real
    case PlainTokens => u.tokens as real
    case Cached => u.cachedTokens as real
    case FirstTokenSamples => u.firstTokenSamples as real
    case FirstTokenSum => u.firstTokenLatencySum as real
    case Output => u.outputTokens as real
    case AnyDecodeLatency => u.decodeLatencySum as real
    case Usd => u.usd
    case _ => 0.0
  }

  /** `add_usage` */
  method AddUsage(metrics: ChannelUsage, r: Row) returns (m: ChannelUsage)
    ensures forall c | c in CHANNEL_COLUMNS :: UsageAt(m, c) == UsageAt(metrics, c) + Cell(c, r)
    ensures m == ChannelUsage(
                   metrics.requests + 1,
                   metrics.tokens + r.inputTokens + r.outputTokens,
                   metrics.cachedTokens + r.cacheReadTokens + r.cacheCreation5mTokens + r.cacheCreation1hTokens,
                   metrics.firstTokenSamples + (if r.firstTokenLatencyMs > 0 then 1 else 0),
                   metrics.firstTokenLatencySum + (if r.firstTokenLatencyMs > 0 then r.firstTokenLatencyMs else 0),
                   metrics.outputTokens + r.outputTokens,
                   metrics.decodeLatencySum +
                     (if r.latencyMs > r.firstTokenLatencyMs then r.latencyMs - r.firstTokenLatencyMs else 0),
                   metrics.usd + r.usd)
  {
    m := metrics.(
      requests := metrics.requests + 1,
      tokens := metrics.tokens + (r.inputTokens + r.outputTokens),
      cachedTokens := metrics.cachedTokens + (r.cacheReadTokens + r.cacheCreation5mTokens + r.cacheCreation1hTokens),
      usd := metrics.usd + r.usd);
    if r.firstTokenLatencyMs > 0 {
      m := m.(
        firstTokenSamples := m.firstTokenSamples + 1,
        firstTokenLatencySum := m.firstTokenLatencySum + r.firstTokenLatencyMs);
    }
    m := m.(outputTokens := m.outputTokens + r.outputTokens);
    if r.latencyMs > r.firstTokenLatencyMs {
      m := m.(decodeLatencySum := m.decodeLatencySum + (r.latencyMs - r.firstTokenLatencyMs));
    }
  }

  function ChannelOf(r: Row): Option<int> {
    Some(r.channelId)
  }

  /** The accumulation loop of `channels_page_json`. */
  method AccumulateChannels(rows: seq<Row>) returns (overview: ChannelUsage, byChannel: map<int, ChannelUsage>)
    ensures forall c | c in CHANNEL_COLUMNS :: UsageAt(overview, c) == Sum(c, rows)
    ensures Grouped(rows, ChannelOf, byChannel, UsageAt, CHANNEL_COLUMNS)
  {
    hide Grouped, UsageAt, Cell, Sum;
    overview, byChannel := NO_USAGE, map[];
    NothingUsed();
    GroupNone(rows[..0], ChannelOf, byChannel, UsageAt, CHANNEL_COLUMNS);
    assert rows[..0] == [];
    for i := 0 to |rows|
      invariant forall c | c in CHANNEL_COLUMNS :: UsageAt(overview, c) == Sum(c, rows[..i])
      invariant Grouped(rows[..i], ChannelOf, byChannel, UsageAt, CHANNEL_COLUMNS)
    {
      forall c ensures Sum(c, rows[..i + 1]) == Sum(c, rows[..i]) + Cell(c, rows[i]) {
        SumSnoc(c, rows, i);
      }
      var r := rows[i];
      ghost var before := byChannel;
      overview := AddUsage(overview, r);
      var usage := AddUsage(if r.channelId in byChannel then byChannel[r.channelId] else NO_USAGE, r);
      byChannel := byChannel[r.channelId := usage];
      GroupMore(rows, ChannelOf, i, before, byChannel, UsageAt, CHANNEL_COLUMNS);
    }
    assert rows[..|rows|] == rows;
  }

  lemma NothingUsed()
    ensures forall c :: UsageAt(NO_USAGE, c) == 0.0 == Sum(c, [])
  {
  }

  /** What the page shows: the overview of all rows, and one entry for each existing channel,
      in the order of the channels. */
  ghost predicate Shows(rows: seq<Row>, ids: seq<int>, overview: ChannelUsage, listed: seq<ChannelUsage>) {
    && |listed| == |ids|
    && (forall c | c in CHANNEL_COLUMNS :: UsageAt(overview, c) == Sum(c, rows))
    && (forall i, c | 0 <= i < |ids| && c in CHANNEL_COLUMNS ::
          UsageAt(listed[i], c) == Sum(c, Of(rows, ChannelOf, ids[i])))
  }

  /** `channels_page_json` for the existing channels `ids`; a channel without rows is shown with zeros. */
  method ChannelsPage(rows: seq<Row>, ids: seq<int>) returns (overview: ChannelUsage, listed: seq<ChannelUsage>)
    ensures Shows(rows, ids, overview, listed)
  {
    hide UsageAt, Cell, Sum;
    var byChannel;
    overview, byChannel := AccumulateChannels(rows);
    listed := [];
    NothingUsed();
    for k := 0 to |ids|
      invariant |listed| == k
      invariant forall i, c | 0 <= i < k && c in CHANNEL_COLUMNS ::
                  UsageAt(listed[i], c) == Sum(c, Of(rows, ChannelOf, ids[i]))
    {
      listed := listed + [if ids[k] in byChannel then byChannel[ids[k]] else NO_USAGE];
    }
  }

  function SumListed(listed: seq<ChannelUsage>, c: Column): real {
    if listed == [] then 0.0 else SumListed(listed[..|listed| - 1], c) + UsageAt(listed[|listed| - 1], c)
  }

  function Listed(ids: seq<int>): Row -> Option<int> {
    (r: Row) => if r.channelId in ids then Some(r.channelId) else None
  }

  /** The rows of channels that no longer exist. */
  function Unlisted(rows: seq<Row>, ids: seq<int>): seq<Row> {
    if rows == [] then []
    else Unlisted(rows[..|rows| - 1], ids) + (if rows[|rows| - 1].channelId in ids then [] else [rows[|rows| - 1]])
  }

  lemma {:induction false} OfListed(rows: seq<Row>, ids: seq<int>, id: int)
    requires id in ids
    ensures Of(rows, Listed(ids), id) == Of(rows, ChannelOf, id)
  {
    if rows != [] {
      OfListed(rows[..|rows| - 1], ids, id);
    }
  }

  lemma {:induction false} ListedIsOver(rows: seq<Row>, ids: seq<int>, n: nat, listed: seq<ChannelUsage>, c: Column)
    requires n == |listed| <= |ids|
    requires forall i | 0 <= i < n :: UsageAt(listed[i], c) == Sum(c, Of(rows, ChannelOf, ids[i]))
    ensures SumListed(listed, c) == SumOver(rows, Listed(ids), ids[..n], c)
    decreases n
  {
    hide UsageAt, Sum, Of, Listed;
    if n > 0 {
      ListedIsOver(rows, ids, n - 1, listed[..n - 1], c);
      OfListed(rows, ids, ids[n - 1]);
      assert ids[..n][..n - 1] == ids[..n - 1];
    }
  }

  lemma {:induction false} KeyedAndUnlisted(rows: seq<Row>, ids: seq<int>, c: Column)
    ensures Sum(c, rows) == Sum(c, Keyed(rows, Listed(ids))) + Sum(c, Unlisted(rows, ids))
  {
    hide Cell, Sum;
    SumNone(c);
    if rows != [] {
      var init, last := rows[..|rows| - 1], rows[|rows| - 1];
      KeyedAndUnlisted(init, ids, c);
      var keyed, rest := Keyed(init, Listed(ids)), Unlisted(init, ids);
      assert init + [last] == rows;
      SumAppend(c, init, last);
      if last.channelId in ids {
        SumAppend(c, keyed, last);
        assert Unlisted(rows, ids) == rest + [] == rest;
      } else {
        SumAppend(c, rest, last);
        assert Keyed(rows, Listed(ids)) == keyed + [] == keyed;
      }
    }
  }

  /** The channels shown add up to the rows of existing channels, and so to the overview exactly
      when the rows of channels deleted since contribute nothing. */
  lemma ChannelsAddUpToOverview(rows: seq<Row>, ids: seq<int>, overview: ChannelUsage, listed: seq<ChannelUsage>, c: Column)
    requires Shows(rows, ids, overview, listed) && c in CHANNEL_COLUMNS
    requires forall i, j | 0 <= i < j < |ids| :: ids[i] != ids[j]
    ensures SumListed(listed, c) == Sum(c, Keyed(rows, Listed(ids)))
    ensures SumListed(listed, c) == UsageAt(overview, c) <==> Sum(c, Unlisted(rows, ids)) == 0.0
  {
    hide UsageAt, Sum, Of, SumOver, Keyed, Unlisted, SumListed;
    ListedIsOver(rows, ids, |ids|, listed, c);
    assert ids[..|ids|] == ids;
    forall i | 0 <= i < |rows| && Listed(ids)(rows[i]).Some? ensures Count(ids, Listed(ids)(rows[i]).value) == 1 {
      CountOnce(ids, rows[i].channelId);
    }
    SumOverKeys(rows, Listed(ids), ids, c, |rows|);
    assert rows[..|rows|] == rows;
    KeyedAndUnlisted(rows, ids, c);
  }

  /** One request over a channel deleted since: a dollar in the overview and none below it. */
  lemma DeletedChannelMissing(overview: ChannelUsage, listed: seq<ChannelUsage>)
    requires Shows([Row(7, 1, 1, 0, 0, 0, 0, 0, 1.0)], [], overview, listed)
    ensures UsageAt(overview, Usd) == 1.0 && SumListed(listed, Usd) == 0.0
  {
    var row := Row(7, 1, 1, 0, 0, 0, 0, 0, 1.0);
    assert [row][..0] == [];
    assert Sum(Usd, [row]) == Sum(Usd, []) + Cell(Usd, row);
  }
}
