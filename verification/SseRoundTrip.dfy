/** What a server writes, the reader of `backend/src/proxy/gateway.cpp` reads back: events as
    section 9.2 of the WHATWG HTML standard has them written, one `data` line per line of a message. */
module SseRoundTrip {
  import opened Text
  import opened SseReader

  /** The lines of a message; there is always one. */
  function MessageLines(message: string): (lines: seq<string>)
    ensures lines != []
  {
    var cut := SplitOn(message, '\n');
    cut.closed + [cut.open]
  }

  /** One `data` line for each line. */
  function DataLines(lines: seq<string>): string {
    if lines == [] then "" else DataLines(lines[..|lines| - 1]) + ("data: " + lines[|lines| - 1] + "\n")
  }

  /** The messages as events, each closed by a blank line. */
  function Written(messages: seq<string>): string {
    if messages == [] then ""
    else Written(messages[..|messages| - 1]) + DataLines(MessageLines(messages[|messages| - 1])) + "\n"
  }

  function DropLeadingLf(message: string): string {
    if message != "" && message[0] == '\n' then DropLeadingLf(message[1..]) else message
  }

  // ----- lines -----

  lemma {:induction false} TextRead(bytes: string, text: string)
    requires Lines(bytes).open == "" && '\n' !in text && '\r' !in text
    ensures Lines(bytes + text) == Cut(Lines(bytes).closed, text) && Blocks(bytes + text) == Blocks(bytes)
    decreases |text|
  {
    hide Lines, Blocks;
    if text == "" {
      assert bytes + text == bytes;
    } else {
      var init, c := text[..|text| - 1], text[|text| - 1];
      TextRead(bytes, init);
      ByteStep(bytes + init, c);
      assert text == init + [c] && bytes + text == bytes + init + [c];
    }
  }

  lemma FieldRead(bytes: string, field: string)
    requires Lines(bytes).open == "" && field != "" && '\n' !in field && '\r' !in field
    ensures Lines(bytes + (field + "\n")).open == ""
    ensures Blocks(bytes + (field + "\n")) == Cut(Blocks(bytes).closed, Blocks(bytes).open + [field])
  {
    hide Lines, Blocks;
    TextRead(bytes, field);
    ByteStep(bytes + field, '\n');
    assert bytes + (field + "\n") == bytes + field + ['\n'];
  }

  ghost predicate Plain(lines: seq<string>) {
    forall i | 0 <= i < |lines| :: '\n' !in lines[i] && '\r' !in lines[i]
  }

  /** The block of a message: one field per line, and its values are the lines. */
  lemma {:induction false} MessageRead(bytes: string, lines: seq<string>)
    requires Lines(bytes).open == "" && Blocks(bytes).open == [] && Plain(lines)
    ensures Lines(bytes + DataLines(lines)).open == ""
    ensures var blocks := Blocks(bytes + DataLines(lines));
            && blocks.closed == Blocks(bytes).closed
            && |blocks.open| == |lines| && DataValues(blocks.open) == lines
    decreases |lines|
  {
    hide Lines, Blocks, DataValue, DataValues, DataLines;
    NoLines(bytes);
    if lines != [] {
      var init, last := lines[..|lines| - 1], lines[|lines| - 1];
      MessageRead(bytes, init);
      LastLine(lines);
      assert lines == init + [last];
      var field := "data: " + last;
      FieldRead(bytes + DataLines(init), field);
      assert bytes + DataLines(lines) == bytes + DataLines(init) + (field + "\n");
      DataValuesSnoc(Blocks(bytes + DataLines(init)).open, field);
      DataValueExactly(field, last);
    }
  }

  lemma NoLines(bytes: string)
    ensures bytes + DataLines([]) == bytes && DataValues([]) == []
  {
  }

  lemma LastLine(lines: seq<string>)
    requires lines != []
    ensures DataLines(lines) == DataLines(lines[..|lines| - 1]) + ("data: " + lines[|lines| - 1] + "\n")
  {
  }

  // ----- messages -----

  lemma {:induction false} PiecesPlain(message: string)
    requires '\r' !in message
    ensures Plain(MessageLines(message))
  {
    SplitOnIsCut(message, '\n');
    PiecesWithout(message, '\n', '\r');
  }

  lemma {:induction false} PiecesWithout(s: string, sep: char, c: char)
    requires c !in s
    ensures c !in SplitOn(s, sep).open && forall i | 0 <= i < |SplitOn(s, sep).closed| :: c !in SplitOn(s, sep).closed[i]
  {
    if s != "" {
      PiecesWithout(s[..|s| - 1], sep, c);
    }
  }

  lemma {:induction false} LinesJoined(message: string)
    ensures JoinLines(MessageLines(message)) == message
  {
    if message != "" {
      var init, c := message[..|message| - 1], message[|message| - 1];
      var cut := SplitOn(init, '\n');
      LinesJoined(init);
      assert message == init + [c];
      var lines := MessageLines(init);
      assert lines[..|lines| - 1] == cut.closed;
      if c == '\n' {
        assert MessageLines(message) == lines + [""];
        assert (lines + [""])[..|lines|] == lines;
      } else {
        assert MessageLines(message) == cut.closed + [cut.open + [c]];
        assert (cut.closed + [cut.open + [c]])[..|cut.closed|] == cut.closed;
      }
    }
  }

  lemma FirstLine(message: string)
    ensures message != "" && message[0] == '\n' ==> MessageLines(message) == [""] + MessageLines(message[1..])
    ensures message != "" && message[0] != '\n' ==> MessageLines(message)[0] != ""
  {
    var cut := SplitOn(message, '\n');
    SplitOnIsCut(message, '\n');
    if message != "" && message[0] == '\n' {
      var rest := SplitOn(message[1..], '\n');
      SplitOnIsCut(message[1..], '\n');
      var whole := Cut([""] + rest.closed, rest.open);
      assert whole.closed[1..] == rest.closed;
      assert message == ['\n'] + message[1..];
      CutUnique(message, '\n', cut, whole);
    }
  }

  lemma {:induction false} DataOfLines(message: string)
    ensures JoinLines(DropLeadingEmpty(MessageLines(message))) == DropLeadingLf(message)
  {
    hide SplitOn, JoinLines;
    FirstLine(message);
    LinesJoined(message);
    if message != "" && message[0] == '\n' {
      DataOfLines(message[1..]);
      assert ([""] + MessageLines(message[1..]))[1..] == MessageLines(message[1..]);
    } else if message == "" {
      EmptyMessage();
    }
  }

  lemma EmptyMessage()
    ensures MessageLines("") == [""] && JoinLines(DropLeadingEmpty([""])) == ""
  {
    assert DropLeadingEmpty([""]) == DropLeadingEmpty([""][1..]);
  }

  /** Round trip: as many events as messages, and each event has its message as data, without the
      line feeds it starts with. */
  lemma {:induction false} WrittenIsRead(messages: seq<string>)
    requires forall i | 0 <= i < |messages| :: '\r' !in messages[i]
    ensures var events := Events(Written(messages));
            && |events| == |messages|
            && forall i | 0 <= i < |messages| :: events[i].data == DropLeadingLf(messages[i])
    ensures Lines(Written(messages)).open == "" && Blocks(Written(messages)).open == []
  {
    hide Lines, Blocks, MessageLines, Events, DataLines, DropLeadingLf;
    if messages == [] {
      NothingRead();
    } else {
      var init, last := messages[..|messages| - 1], messages[|messages| - 1];
      WrittenIsRead(init);
      OneMore(Written(init), last);
    }
  }

  lemma NothingRead()
    ensures Events("") == [] && Lines("").open == "" && Blocks("").open == []
  {
  }

  lemma OneMore(bytes: string, message: string)
    requires Lines(bytes).open == "" && Blocks(bytes).open == [] && '\r' !in message
    ensures var longer := bytes + DataLines(MessageLines(message)) + "\n";
            && Lines(longer).open == "" && Blocks(longer).open == []
            && |Events(longer)| == |Events(bytes)| + 1 && Events(longer)[..|Events(bytes)|] == Events(bytes)
            && Events(longer)[|Events(bytes)|].data == DropLeadingLf(message)
  {
    hide Lines, Blocks, MessageLines, DataValues, JoinLines;
    PiecesPlain(message);
    var lines := MessageLines(message);
    MessageRead(bytes, lines);
    var before := bytes + DataLines(lines);
    ByteStep(before, '\n');
    EventsOfSnoc(Blocks(before).closed, Blocks(before).open);
    DataOfLines(message);
  }

  /** A message comes back unchanged exactly if it does not start with a line feed, and it ends the
      stream exactly if it is `[DONE]` up to space. */
  lemma RoundTrip(messages: seq<string>, i: nat)
    requires i < |messages| && forall i | 0 <= i < |messages| :: '\r' !in messages[i]
    ensures var events := Events(Written(messages));
            && |events| == |messages|
            && (events[i].data == messages[i] <==> messages[i] == "" || messages[i][0] != '\n')
            && (events[i].done <==> IsDoneMark(events[i].data))
  {
    hide Lines, EventsOf;
    WrittenIsRead(messages);
    DoneExactly(Blocks(Written(messages)).closed, i);
    LeadingLfShortens(messages[i]);
  }

  lemma {:induction false} LeadingLfShortens(message: string)
    ensures |DropLeadingLf(message)| <= |message|
    ensures DropLeadingLf(message) == message <==> message == "" || message[0] != '\n'
  {
    if message != "" && message[0] == '\n' {
      LeadingLfShortens(message[1..]);
    }
  }
}
