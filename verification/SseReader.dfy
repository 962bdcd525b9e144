/** The incremental server-sent-event reader of `backend/src/proxy/gateway.cpp`, proved
    against a batch parser that sees all bytes at once. */
module SseReader {
  import opened Text

  const MAX_SSE_LINE_BYTES: nat := 64 * 1024
  const MAX_SSE_EVENT_BYTES: nat := 256 * 1024

  datatype SseEvent = SseEvent(data: string, done: bool)

  // ---------------------------------------------------------------------------------
  // The batch grammar
  // ---------------------------------------------------------------------------------

  /** A sequence cut at a separator: the terminated pieces and the unterminated rest. */
  datatype Cut<T> = Cut(closed: seq<seq<T>>, open: seq<T>)

  function SplitOn<T(==)>(s: seq<T>, sep: T): Cut<T> {
    if s == [] then Cut([], [])
    else
      var cut := SplitOn(s[..|s| - 1], sep);
      if s[|s| - 1] == sep then Cut(cut.closed + [cut.open], [])
      else Cut(cut.closed, cut.open + [s[|s| - 1]])
  }

  function Glue<T>(closed: seq<seq<T>>, sep: T): seq<T> {
    if closed == [] then [] else closed[0] + [sep] + Glue(closed[1..], sep)
  }

  /** A cut of `s`: no piece contains the separator, and the pieces spell `s`. */
  ghost predicate IsCut<T>(s: seq<T>, sep: T, cut: Cut<T>) {
    && (forall i | 0 <= i < |cut.closed| :: sep !in cut.closed[i])
    && sep !in cut.open
    && s == Glue(cut.closed, sep) + cut.open
  }

  function DropCr(bytes: string): string {
    if bytes == "" then ""
    else if bytes[|bytes| - 1] == '\r' then DropCr(bytes[..|bytes| - 1])
    else DropCr(bytes[..|bytes| - 1]) + [bytes[|bytes| - 1]]
  }

  function Lines(bytes: string): Cut<char> {
    SplitOn(DropCr(bytes), '\n')
  }

  function Blocks(bytes: string): Cut<string> {
    SplitOn(Lines(bytes).closed, "")
  }

  /** The value of a `data` field line; comment lines and other fields give nothing. */
  function DataValue(line: string): Option<string> {
    var colon := Find(line, ':');
    if line[..colon] != "data" then None
    else if colon == |line| then Some("")
    else
      var value := line[colon + 1..];
      Some(if value != "" && value[0] == ' ' then value[1..] else value)
  }

  function DataValues(block: seq<string>): seq<string> {
    if block == [] then []
    else
      DataValues(block[..|block| - 1]) +
      match DataValue(block[|block| - 1]) case Some(v) => [v] case None => []
  }

  function DropLeadingEmpty(values: seq<string>): seq<string> {
    if values != [] && values[0] == "" then DropLeadingEmpty(values[1..]) else values
  }

  function JoinLines(values: seq<string>): string {
    if values == [] then ""
    else if |values| == 1 then values[0]
    else JoinLines(values[..|values| - 1]) + "\n" + values[|values| - 1]
  }

  function EventData(block: seq<string>): string {
    JoinLines(DropLeadingEmpty(DataValues(block)))
  }

  function EventOf(block: seq<string>): SseEvent {
    SseEvent(EventData(block), Trim(EventData(block)) == "[DONE]")
  }

  /** One event per non-empty block, also for a block of comments only. */
  function EventsOf(blocks: seq<seq<string>>): seq<SseEvent> {
    if blocks == [] then []
    else
      var last := blocks[|blocks| - 1];
      EventsOf(blocks[..|blocks| - 1]) + (if last == [] then [] else [EventOf(last)])
  }

  function Events(bytes: string): seq<SseEvent> {
    EventsOf(Blocks(bytes).closed)
  }

  function BlockBytes(block: seq<string>): nat {
    if block == [] then 0 else BlockBytes(block[..|block| - 1]) + |block[|block| - 1]| + 1
  }

  /** Every line and every block, finished or not, is within its limit. */
  ghost predicate Accepts(bytes: string) {
    && (forall i | 0 <= i < |Lines(bytes).closed| :: |Lines(bytes).closed[i]| <= MAX_SSE_LINE_BYTES)
    && |Lines(bytes).open| <= MAX_SSE_LINE_BYTES
    && (forall i | 0 <= i < |Blocks(bytes).closed| :: BlockBytes(Blocks(bytes).closed[i]) <= MAX_SSE_EVENT_BYTES)
    && BlockBytes(Blocks(bytes).open) <= MAX_SSE_EVENT_BYTES
  }

  /** The longest prefix within the limits. */
  ghost function GoodPrefix(bytes: string): (good: string)
    ensures good <= bytes && Accepts(good)
  {
    if Accepts(bytes) then bytes
    else
      assert bytes != "";
      GoodPrefix(bytes[..|bytes| - 1])
  }

  /** What a reader given `bytes` has emitted: the events of the longest good prefix. */
  ghost function Emitted(bytes: string): seq<SseEvent> {
    Events(GoodPrefix(bytes))
  }

  // ---------------------------------------------------------------------------------
  // Facts about the batch grammar
  // ---------------------------------------------------------------------------------

  lemma {:induction false} GlueSnoc<T>(closed: seq<seq<T>>, last: seq<T>, sep: T)
    ensures Glue(closed + [last], sep) == Glue(closed, sep) + last + [sep]
  {
    if closed == [] {
      assert closed + [last] == [last];
      assert Glue([last][1..], sep) == [];
    } else {
      assert (closed + [last])[1..] == closed[1..] + [last];
      GlueSnoc(closed[1..], last, sep);
    }
  }

  /** `SplitOn` returns a cut. */
  lemma {:induction false} SplitOnIsCut<T>(s: seq<T>, sep: T)
    ensures IsCut(s, sep, SplitOn(s, sep))
  {
    if s == [] {
    } else {
      var cut := SplitOn(s[..|s| - 1], sep);
      SplitOnIsCut(s[..|s| - 1], sep);
      GlueSnoc(cut.closed, cut.open, sep);
      assert s == s[..|s| - 1] + [s[|s| - 1]];
    }
  }

  /** A sequence has only one cut, so "split at LF" and "group by blank lines" leave no choice. */
  lemma {:induction false} CutUnique<T>(s: seq<T>, sep: T, a: Cut<T>, b: Cut<T>)
    requires IsCut(s, sep, a) && IsCut(s, sep, b)
    ensures a == b
    decreases |a.closed|
  {
    if a.closed == [] {
      assert s == a.open;
      OnlyOpen(s, sep, b);
      assert s == b.open;
    } else if b.closed == [] {
      assert s == b.open;
      OnlyOpen(s, sep, a);
    } else {
      var x, y := a.closed[0], b.closed[0];
      var restA, restB := Glue(a.closed[1..], sep) + a.open, Glue(b.closed[1..], sep) + b.open;
      assert s == x + [sep] + restA == y + [sep] + restB;
      if |x| < |y| {
        PieceTooLong(s, sep, x, y);
      } else if |y| < |x| {
        PieceTooLong(s, sep, y, x);
      }
      assert x == s[..|x|] == y;
      assert restA == s[|x| + 1..] == restB;
      CutUnique(restA, sep, Cut(a.closed[1..], a.open), Cut(b.closed[1..], b.open));
      assert a.closed == [x] + a.closed[1..] && b.closed == [y] + b.closed[1..];
    }
  }

  lemma PieceTooLong<T>(s: seq<T>, sep: T, x: seq<T>, y: seq<T>)
    requires x + [sep] <= s && y <= s && |x| < |y|
    ensures sep in y
  {
    assert s[|x|] == (x + [sep])[|x|] == y[|x|];
  }

  lemma OnlyOpen<T>(s: seq<T>, sep: T, cut: Cut<T>)
    requires IsCut(s, sep, cut) && sep !in s
    ensures cut.closed == []
  {
    if cut.closed != [] {
      GlueHasSeparator(cut.closed, sep);
      assert false;
    }
  }

  lemma GlueHasSeparator<T>(closed: seq<seq<T>>, sep: T)
    requires closed != []
    ensures sep in Glue(closed, sep)
  {
    assert Glue(closed, sep)[|closed[0]|] == sep;
  }

  /** How one more byte changes the two cuts. */
  lemma ByteStep(bytes: string, c: char)
    ensures c == '\r' ==> Lines(bytes + [c]) == Lines(bytes) && Blocks(bytes + [c]) == Blocks(bytes)
    ensures c != '\r' && c != '\n' ==>
              && Lines(bytes + [c]) == Cut(Lines(bytes).closed, Lines(bytes).open + [c])
              && Blocks(bytes + [c]) == Blocks(bytes)
    ensures c == '\n' ==> Lines(bytes + [c]) == Cut(Lines(bytes).closed + [Lines(bytes).open], "")
    ensures c == '\n' && Lines(bytes).open == "" ==>
              Blocks(bytes + [c]) == Cut(Blocks(bytes).closed + [Blocks(bytes).open], [])
    ensures c == '\n' && Lines(bytes).open != "" ==>
              Blocks(bytes + [c]) == Cut(Blocks(bytes).closed, Blocks(bytes).open + [Lines(bytes).open])
  {
    assert (bytes + [c])[..|bytes|] == bytes;
    if c != '\r' {
      var text := DropCr(bytes);
      assert (text + [c])[..|text|] == text;
      if c == '\n' {
        var closed, open := Lines(bytes).closed, Lines(bytes).open;
        assert (closed + [open])[..|closed|] == closed;
      }
    }
  }

  lemma BlockBytesSnoc(block: seq<string>, line: string)
    ensures BlockBytes(block + [line]) == BlockBytes(block) + |line| + 1
  {
    assert (block + [line])[..|block|] == block;
  }

  lemma EventsOfSnoc(blocks: seq<seq<string>>, block: seq<string>)
    ensures EventsOf(blocks + [block]) == EventsOf(blocks) + (if block == [] then [] else [EventOf(block)])
  {
    assert (blocks + [block])[..|blocks|] == blocks;
  }

  /** Acceptance is closed under prefixes, and a good byte only ever adds events. */
  lemma AcceptsStep(bytes: string, c: char)
    requires Accepts(bytes + [c])
    ensures Accepts(bytes)
    ensures Events(bytes) <= Events(bytes + [c])
  {
    ByteStep(bytes, c);
    var longer := bytes + [c];
    var lines, lines' := Lines(bytes), Lines(longer);
    var blocks, blocks' := Blocks(bytes), Blocks(longer);
    forall i | 0 <= i < |lines.closed| ensures |lines.closed[i]| <= MAX_SSE_LINE_BYTES {
      assert lines.closed[i] == lines'.closed[i];
    }
    forall i | 0 <= i < |blocks.closed| ensures BlockBytes(blocks.closed[i]) <= MAX_SSE_EVENT_BYTES {
      assert blocks.closed[i] == blocks'.closed[i];
    }
    if c == '\n' {
      assert lines'.closed[|lines.closed|] == lines.open;
      if lines.open == "" {
        assert blocks'.closed[|blocks.closed|] == blocks.open;
        EventsOfSnoc(blocks.closed, blocks.open);
      } else {
        BlockBytesSnoc(blocks.open, lines.open);
      }
    }
  }

  lemma {:induction false} AcceptsPrefix(bytes: string, more: string)
    requires Accepts(bytes + more)
    ensures Accepts(bytes)
    ensures Events(bytes) <= Events(bytes + more)
    decreases |more|
  {
    if more == "" {
      assert bytes + more == bytes;
    } else {
      var init, last := more[..|more| - 1], more[|more| - 1];
      assert bytes + more == bytes + init + [last];
      AcceptsStep(bytes + init, last);
      AcceptsPrefix(bytes, init);
    }
  }

  /** Once a stream is rejected, whatever follows changes nothing. */
  lemma {:induction false} RejectedForever(bytes: string, more: string)
    requires !Accepts(bytes)
    ensures !Accepts(bytes + more)
    ensures GoodPrefix(bytes + more) == GoodPrefix(bytes)
    decreases |more|
  {
    if more == "" {
      assert bytes + more == bytes;
    } else {
      var init := more[..|more| - 1];
      RejectedForever(bytes, init);
      assert (bytes + more)[..|bytes + more| - 1] == bytes + init;
      if Accepts(bytes + more) {
        AcceptsPrefix(bytes, more);
      }
    }
  }

  /** `GoodPrefix` is the longest accepted prefix: accepted prefixes are exactly its prefixes. */
  lemma GoodPrefixLongest(bytes: string, k: nat)
    requires k <= |bytes|
    ensures Accepts(bytes[..k]) <==> k <= |GoodPrefix(bytes)|
  {
    var good := GoodPrefix(bytes);
    if k <= |good| {
      assert good == bytes[..k] + good[k..];
      AcceptsPrefix(bytes[..k], good[k..]);
    } else {
      NextIsRejected(bytes);
      assert bytes[..k] == bytes[..|good| + 1] + bytes[|good| + 1..k];
      RejectedForever(bytes[..|good| + 1], bytes[|good| + 1..k]);
    }
  }

  lemma EmptyAccepted()
    ensures Accepts("")
  {
  }

  lemma {:induction false} NextIsRejected(bytes: string)
    ensures |GoodPrefix(bytes)| < |bytes| ==> !Accepts(bytes[..|GoodPrefix(bytes)| + 1])
  {
    hide Accepts;
    if !Accepts(bytes) {
      EmptyAccepted();
      var init := bytes[..|bytes| - 1];
      NextIsRejected(init);
      if Accepts(init) {
        assert bytes[..|init| + 1] == bytes;
      } else {
        assert init[..|GoodPrefix(init)| + 1] == bytes[..|GoodPrefix(init)| + 1];
      }
    }
  }

  /** Events only ever accumulate, whatever the verdict. */
  lemma EmittedMonotone(bytes: string, more: string)
    ensures Emitted(bytes) <= Emitted(bytes + more)
  {
    if Accepts(bytes) {
      var good := GoodPrefix(bytes + more);
      assert (bytes + more)[..|bytes|] == bytes;
      GoodPrefixLongest(bytes + more, |bytes|);
      assert good == bytes + good[|bytes|..];
      AcceptsPrefix(bytes, good[|bytes|..]);
    } else {
      RejectedForever(bytes, more);
    }
  }

  lemma DataValuesSnoc(block: seq<string>, line: string)
    ensures DataValues(block + [line]) ==
              DataValues(block) + match DataValue(line) case Some(v) => [v] case None => []
  {
    assert (block + [line])[..|block|] == block;
  }

  lemma {:induction false} JoinStep(values: seq<string>, v: string)
    ensures JoinLines(DropLeadingEmpty(values + [v])) ==
              (var data := JoinLines(DropLeadingEmpty(values)); if data == "" then v else data + "\n" + v)
  {
    if values == [] {
      assert values + [v] == [v];
      assert DropLeadingEmpty([v]) == if v == "" then [] else [v];
    } else if values[0] == "" {
      assert (values + [v])[1..] == values[1..] + [v];
      JoinStep(values[1..], v);
    } else {
      assert (values + [v])[..|values|] == values;
      JoinNonEmpty(values);
    }
  }

  lemma {:induction false} JoinNonEmpty(values: seq<string>)
    requires values != [] && values[0] != ""
    ensures JoinLines(values) != ""
  {
  }

  lemma DataStep(block: seq<string>, line: string)
    ensures EventData(block + [line]) ==
              match DataValue(line)
              case None => EventData(block)
              case Some(v) => if EventData(block) == "" then v else EventData(block) + "\n" + v
  {
    DataValuesSnoc(block, line);
    if DataValue(line).Some? {
      JoinStep(DataValues(block), DataValue(line).value);
    } else {
      assert DataValues(block + [line]) == DataValues(block);
    }
  }

  /** How `push_line` reads a line, comment or field. */
  lemma FieldValue(line: string)
    requires line != ""
    ensures line[0] == ':' ==> DataValue(line) == None
    ensures var colon := Find(line, ':');
            && DataValue(line).Some? == (line[..colon] == "data")
            && (DataValue(line).Some? ==>
                  var value := if colon == |line| then "" else line[colon + 1..];
                  DataValue(line).value == if value != "" && value[0] == ' ' then value[1..] else value)
  {
  }

  /** Which lines give data, and what: one space after the colon is not part of the value. */
  lemma DataValueExactly(line: string, v: string)
    ensures DataValue(line) == Some(v) <==>
              || (line == "data" && v == "")
              || line == "data: " + v
              || (line == "data:" + v && (v == "" || v[0] != ' '))
  {
    hide Find;
    var colon := Find(line, ':');
    if |line| > 4 && line[..4] == "data" && line[4] == ':' {
      FindAt(line, ':', 4);
      assert line == "data:" + line[5..];
      assert line[5..] != "" && line[5] == ' ' ==> line == "data: " + line[5..][1..];
    } else if line == "data" {
      assert line[..colon] == line;
    }
  }

  /** Which events end a stream: those whose data is `[DONE]` with nothing but space around it. */
  lemma {:induction false} DoneExactly(blocks: seq<seq<string>>, i: nat)
    requires i < |EventsOf(blocks)|
    ensures EventsOf(blocks)[i].done <==> IsDoneMark(EventsOf(blocks)[i].data)
  {
    var init, last := blocks[..|blocks| - 1], blocks[|blocks| - 1];
    if i < |EventsOf(init)| {
      DoneExactly(init, i);
    } else {
      TrimExactly(EventData(last), "[DONE]");
    }
  }

  ghost predicate IsDoneMark(data: string) {
    exists before, after :: Around(data, before, "[DONE]", after)
  }

  lemma {:induction false} DataWithinBlock(block: seq<string>)
    ensures |EventData(block)| <= BlockBytes(block)
  {
    if block != [] {
      var init, line := block[..|block| - 1], block[|block| - 1];
      DataWithinBlock(init);
      assert block == init + [line];
      DataStep(init, line);
    }
  }

  /** Where the data rule differs from joining all values with LF: only when the first of
      several values is empty. */
  lemma JoinDiffersExactly(values: seq<string>)
    ensures JoinLines(DropLeadingEmpty(values)) == JoinLines(values) <==> |values| <= 1 || values[0] != ""
  {
    hide JoinLines, TotalLength;
    if |values| > 1 {
      DropShortens(values[1..]);
      JoinLength(values);
      TotalLengthCons(values);
    } else {
      JoinSingle(values);
    }
  }

  /** Two data lines, the first empty: the standard's data is a line feed and `a`. */
  lemma FirstValueEmpty()
    ensures JoinLines(DropLeadingEmpty(["", "a"])) == "a" && JoinLines(["", "a"]) == "\na"
  {
    assert ["", "a"][1..] == ["a"] && ["", "a"][..1] == [""];
  }

  lemma JoinSingle(values: seq<string>)
    requires |values| <= 1
    ensures JoinLines(DropLeadingEmpty(values)) == JoinLines(values)
  {
    assert |values| == 1 && values[0] == "" ==> DropLeadingEmpty(values) == DropLeadingEmpty(values[1..]) == [];
  }

  function TotalLength(values: seq<string>): nat {
    if values == [] then 0 else TotalLength(values[..|values| - 1]) + |values[|values| - 1]|
  }

  lemma {:induction false} JoinLength(values: seq<string>)
    ensures |JoinLines(values)| == TotalLength(values) + (if values == [] then 0 else |values| - 1)
  {
    if |values| > 1 {
      JoinLength(values[..|values| - 1]);
    } else if |values| == 1 {
      assert TotalLength(values[..0]) == 0;
    }
  }

  lemma {:induction false} TotalLengthCons(values: seq<string>)
    requires values != []
    ensures TotalLength(values) == |values[0]| + TotalLength(values[1..])
  {
    if |values| > 1 {
      var init := values[..|values| - 1];
      TotalLengthCons(init);
      assert init[1..] == values[1..][..|values| - 2];
    }
  }

  lemma {:induction false} DropShortens(values: seq<string>)
    ensures |JoinLines(DropLeadingEmpty(values))| <= TotalLength(values) + |values| - (if values == [] then 0 else 1)
  {
    JoinLength(values);
    if values != [] && values[0] == "" {
      DropShortens(values[1..]);
      TotalLengthCons(values);
    }
  }

  // ---------------------------------------------------------------------------------
  // The incremental reader
  // ---------------------------------------------------------------------------------

  class SseReader {
    var eventBytes: nat
    var line: string
    var data: string
    var eventOpen: bool
    var ok: bool
    ghost var seen: string // every byte given so far

    /** While ok, the five fields are exactly what the batch cuts of `seen` leave open. */
    ghost predicate Valid()
      reads this
    {
      if ok then Accepts(seen) && Holds(seen) else !Accepts(seen)
    }

    ghost predicate Holds(bytes: string)
      reads this
    {
      && line == Lines(bytes).open
      && data == EventData(Blocks(bytes).open)
      && eventBytes == BlockBytes(Blocks(bytes).open)
      && eventOpen == (Blocks(bytes).open != [])
    }

    constructor ()
      ensures Valid() && ok && seen == ""
    {
      eventBytes, line, data, eventOpen, ok, seen := 0, "", "", false, true, "";
    }

    /** However long the stream is, the two buffers stay within the two limits. */
    lemma BufferBounds()
      requires Valid() && ok
      ensures |line| <= MAX_SSE_LINE_BYTES
      ensures |data| <= eventBytes <= MAX_SSE_EVENT_BYTES
    {
      DataWithinBlock(Blocks(seen).open);
    }

    method PushLine(out: seq<SseEvent>, ghost before: string) returns (good: bool, out': seq<SseEvent>)
      requires ok && Accepts(before) && Holds(before)
      modifies this
      ensures seen == old(seen)
      ensures good == ok == Accepts(before + "\n")
      ensures good ==> Holds(before + "\n")
      ensures good ==> out <= out' && Events(before + "\n") == Events(before) + out'[|out|..]
      ensures !good ==> out' == out
    {
      hide Accepts, Lines, Blocks, Events, EventData, BlockBytes, DataValue, Find, Trim;
      out' := out;
      var current := line;
      line := "";
      if current == "" {
        BlankLine(before);
        if eventOpen {
          var trimmed := TrimAscii(data);
          out' := out + [SseEvent(data, trimmed == "[DONE]")];
          data := "";
          eventBytes := 0;
          eventOpen := false;
        }
        return true, out';
      }
      eventOpen := true;
      eventBytes := eventBytes + |current| + 1;
      FieldLine(before);
      if eventBytes > MAX_SSE_EVENT_BYTES {
        ok := false;
        return false, out';
      }
      FieldValue(current);
      if current[0] == ':' {
        return true, out';
      }
      hide Holds;
      var colon := Find(current, ':');
      var field, value := current, "";
      if colon != |current| {
        field := current[..colon];
        value := current[colon + 1..];
        if value != "" && value[0] == ' ' {
          value := value[1..];
        }
      }
      if field == "data" {
        if data != "" {
          data := data + "\n";
        }
        data := data + value;
      }
      Reheld(before + "\n");
      return true, out';
    }

    /** The fields after a field line, put together again. */
    lemma Reheld(bytes: string)
      requires line == Lines(bytes).open && data == EventData(Blocks(bytes).open)
      requires eventBytes == BlockBytes(Blocks(bytes).open) && eventOpen == (Blocks(bytes).open != [])
      ensures Holds(bytes)
    {
    }

    /** One call with any chunk: the verdict is the batch verdict on all bytes so far, and
        the events appended are those the batch parser adds for this chunk. */
    method Consume(chunk: string, out: seq<SseEvent>) returns (good: bool, out': seq<SseEvent>)
      requires Valid()
      modifies this
      ensures Valid() && seen == old(seen) + chunk
      ensures good == ok == Accepts(seen)
      ensures out <= out' && Emitted(seen) == Emitted(old(seen)) + out'[|out|..]
    {
      out' := out;
      hide Accepts, Lines, Blocks, Events, EventData, BlockBytes, GoodPrefix;
      ghost var start := seen;
      GoodIsAll(start);
      seen := seen + chunk;
      if !ok {
        RejectedForever(start, chunk);
        return false, out';
      }
      assert start + chunk[..0] == start;
      for i := 0 to |chunk|
        invariant ok && Accepts(start + chunk[..i]) && Holds(start + chunk[..i])
        invariant seen == start + chunk
        invariant out <= out' && Events(start + chunk[..i]) == Events(start) + out'[|out|..]
      {
        ghost var before := start + chunk[..i];
        var ch := chunk[i];
        assert start + chunk[..i + 1] == before + [ch];
        ByteStep(before, ch);
        if ch != '\n' {
          OtherByte(before, ch);
        }
        if ch == '\r' {
          continue;
        }
        if ch == '\n' {
          var pushed;
          pushed, out' := PushLine(out', before);
          if !pushed {
            Rejected(start, chunk, i);
            return false, out';
          }
          continue;
        }
        line := line + [ch];
        if |line| > MAX_SSE_LINE_BYTES {
          ok := false;
          Rejected(start, chunk, i);
          return false, out';
        }
      }
      assert chunk[..|chunk|] == chunk;
      GoodIsAll(seen);
      return ok, out';
    }

    /** End of stream: an unfinished line or block is dropped without an event. */
    method Finish() returns (good: bool)
      requires Valid()
      modifies this
      ensures good == ok == old(ok) == Accepts(old(seen)) && seen == old(seen)
      ensures good ==> line == "" && data == "" && !eventOpen && eventBytes == old(eventBytes)
      ensures !good ==> unchanged(this)
    {
      if !ok {
        return false;
      }
      if eventOpen {
        data := "";
        eventOpen := false;
      }
      line := "";
      return true;
    }
  }

  lemma BlankLine(bytes: string)
    requires Accepts(bytes) && Lines(bytes).open == ""
    ensures Accepts(bytes + "\n") && Lines(bytes + "\n").open == "" && Blocks(bytes + "\n").open == []
    ensures Events(bytes + "\n") ==
              Events(bytes) + (if Blocks(bytes).open == [] then [] else [EventOf(Blocks(bytes).open)])
    ensures EventData([]) == "" && BlockBytes([]) == 0
  {
    ByteStep(bytes, '\n');
    LineFeedAccepts(bytes);
    EventsOfSnoc(Blocks(bytes).closed, Blocks(bytes).open);
  }

  lemma GoodIsAll(bytes: string)
    ensures Accepts(bytes) ==> GoodPrefix(bytes) == bytes
  {
  }

  lemma OtherByte(bytes: string, c: char)
    requires Accepts(bytes) && c != '\n'
    ensures Events(bytes + [c]) == Events(bytes)
    ensures Accepts(bytes + [c]) <==> c == '\r' || |Lines(bytes).open| < MAX_SSE_LINE_BYTES
  {
    ByteStep(bytes, c);
  }

  lemma FieldLine(bytes: string)
    requires Accepts(bytes) && Lines(bytes).open != ""
    ensures var line, block, after := Lines(bytes).open, Blocks(bytes).open, Blocks(bytes + "\n").open;
            && Lines(bytes + "\n").open == "" && after != []
            && BlockBytes(after) == BlockBytes(block) + |line| + 1
            && (Accepts(bytes + "\n") <==> BlockBytes(after) <= MAX_SSE_EVENT_BYTES)
            && EventData(after) ==
                 match DataValue(line)
                 case None => EventData(block)
                 case Some(v) => if EventData(block) == "" then v else EventData(block) + "\n" + v
    ensures Events(bytes + "\n") == Events(bytes)
  {
    hide Accepts, Lines, Blocks, EventData, BlockBytes, DataValue;
    var line, block := Lines(bytes).open, Blocks(bytes).open;
    ByteStep(bytes, '\n');
    LineFeedAccepts(bytes);
    BlockBytesSnoc(block, line);
    DataStep(block, line);
  }

  lemma LineFeedAccepts(bytes: string)
    requires Accepts(bytes)
    ensures Accepts(bytes + "\n") <==>
              Lines(bytes).open == "" || BlockBytes(Blocks(bytes).open + [Lines(bytes).open]) <= MAX_SSE_EVENT_BYTES
  {
    ByteStep(bytes, '\n');
  }

  /** The byte at `i` is the first bad one, so the whole chunk is rejected with the events before it. */
  lemma Rejected(start: string, chunk: string, i: nat)
    requires i < |chunk| && Accepts(start + chunk[..i]) && !Accepts(start + chunk[..i] + [chunk[i]])
    ensures !Accepts(start + chunk) && GoodPrefix(start + chunk) == start + chunk[..i]
  {
    var before := start + chunk[..i];
    var bad := before + [chunk[i]];
    assert start + chunk == bad + chunk[i + 1..];
    RejectedForever(bad, chunk[i + 1..]);
    assert bad[..|bad| - 1] == before;
  }

  lemma NothingEmitted()
    ensures Emitted("") == [] && Flatten([]) == ""
  {
    hide Accepts;
    EmptyAccepted();
    assert Lines("").closed == [];
  }

  lemma EmittedGood(bytes: string)
    ensures Accepts(bytes) ==> Emitted(bytes) == Events(bytes)
  {
  }

  lemma EmittedDone(bytes: string)
    ensures forall i | 0 <= i < |Emitted(bytes)| :: Emitted(bytes)[i].done <==> IsDoneMark(Emitted(bytes)[i].data)
  {
    hide GoodPrefix, EventsOf, Blocks;
    forall i | 0 <= i < |Emitted(bytes)| ensures Emitted(bytes)[i].done <==> IsDoneMark(Emitted(bytes)[i].data) {
      DoneExactly(Blocks(GoodPrefix(bytes)).closed, i);
    }
  }

  /** Chunk independence: any way of cutting a stream gives the batch events and verdict. */
  method ReadAll(chunks: seq<string>) returns (events: seq<SseEvent>, ok: bool)
    ensures events == Emitted(Flatten(chunks))
    ensures ok <==> Accepts(Flatten(chunks))
    ensures ok ==> events == Events(Flatten(chunks))
    ensures forall i | 0 <= i < |events| :: events[i].done <==> IsDoneMark(events[i].data)
  {
    EmittedDone(Flatten(chunks));
    EmittedGood(Flatten(chunks));
    hide Emitted, Accepts, Flatten, IsDoneMark, Events;
    NothingEmitted();
    var reader := new SseReader();
    events, ok := [], true;
    assert chunks[..0] == [];
    for i := 0 to |chunks|
      invariant fresh(reader) && reader.Valid() && ok == reader.ok
      invariant reader.seen == Flatten(chunks[..i])
      invariant events == Emitted(reader.seen)
    {
      FlattenSnoc(chunks[..i], chunks[i]);
      assert chunks[..i + 1] == chunks[..i] + [chunks[i]];
      ok, events := reader.Consume(chunks[i], events);
    }
    assert chunks[..|chunks|] == chunks;
    ok := reader.Finish();
  }
}
