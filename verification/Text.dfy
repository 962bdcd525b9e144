/** String helpers shared by the other modules: `backend/src/util/strings.cpp` and the
    few `std::string` searches the modelled code relies on. */
module Text {

  datatype Option<+T> = None | Some(value: T)

  /** Index of the first `c` in `s`, or `|s|` when there is none (`std::string::find`). */
  function Find(s: string, c: char): (i: nat)
    ensures i <= |s| && c !in s[..i]
    ensures i < |s| ==> s[i] == c
  {
    if s == "" || s[0] == c then 0
    else
      assert forall k | 0 < k <= |s| :: s[..k] == [s[0]] + s[1..][..k - 1];
      1 + Find(s[1..], c)
  }

  lemma {:induction false} FindAt(s: string, c: char, i: nat)
    requires i < |s| && s[i] == c && c !in s[..i]
    ensures Find(s, c) == i
  {
    if i > 0 {
      assert s[..i][0] == s[0];
      assert s[1..][..i - 1] == s[..i][1..];
      FindAt(s[1..], c, i - 1);
    }
  }

  /** `std::isspace` in the C locale. */
  predicate IsSpace(c: char) {
    c == ' ' || 9 <= c as int <= 13
  }

  predicate IsDigit(c: char) {
    '0' <= c <= '9'
  }

  function TrimLeft(s: string): string {
    if s == "" || !IsSpace(s[0]) then s else TrimLeft(s[1..])
  }

  function TrimRight(s: string): string {
    if s == "" || !IsSpace(s[|s| - 1]) then s else TrimRight(s[..|s| - 1])
  }

  function Trim(s: string): string {
    TrimRight(TrimLeft(s))
  }

  /** `trim_ascii`: two index scans, the second never crossing the first. */
  method TrimAscii(value: string) returns (t: string)
    ensures t == Trim(value)
  {
    hide TrimLeft, TrimRight, IsSpace;
    var begin := 0;
    assert value[0..] == value;
    while begin < |value| && IsSpace(value[begin])
      invariant begin <= |value|
      invariant TrimLeft(value) == TrimLeft(value[begin..])
    {
      TrimLeftOnce(value[begin..]);
      assert value[begin..][1..] == value[begin + 1..];
      begin := begin + 1;
    }
    ghost var rest := value[begin..];
    TrimLeftOnce(rest);
    var end := |value|;
    assert value[begin..end] == rest;
    while end > begin && IsSpace(value[end - 1])
      invariant begin <= end <= |value|
      invariant TrimRight(rest) == TrimRight(value[begin..end])
    {
      TrimRightOnce(value[begin..end]);
      assert value[begin..end][..end - begin - 1] == value[begin..end - 1];
      end := end - 1;
    }
    TrimRightOnce(value[begin..end]);
    t := value[begin..end];
  }

  lemma TrimLeftOnce(s: string)
    ensures TrimLeft(s) == if s == "" || !IsSpace(s[0]) then s else TrimLeft(s[1..])
  {
  }

  lemma TrimRightOnce(s: string)
    ensures TrimRight(s) == if s == "" || !IsSpace(s[|s| - 1]) then s else TrimRight(s[..|s| - 1])
  {
  }

  /** What trimming means: the longest stretch between two non-space characters. */
  lemma {:induction false} TrimCharacterised(s: string, before: string, core: string, after: string)
    requires s == before + core + after
    requires forall c | c in before :: IsSpace(c)
    requires forall c | c in after :: IsSpace(c)
    requires core == "" || (!IsSpace(core[0]) && !IsSpace(core[|core| - 1]))
    ensures Trim(s) == core
  {
    if before != "" {
      assert s[0] == before[0] && s[1..] == before[1..] + core + after;
      TrimCharacterised(s[1..], before[1..], core, after);
    } else if core == "" {
      assert s == after;
      AllSpace(after);
    } else {
      assert s[0] == core[0];
      TrimRightStops(core, after);
      assert s == core + after;
    }
  }

  lemma {:induction false} AllSpace(s: string)
    requires forall c | c in s :: IsSpace(c)
    ensures Trim(s) == ""
  {
    if s != "" {
      AllSpace(s[1..]);
    }
  }

  lemma {:induction false} TrimRightStops(core: string, after: string)
    requires core != "" && !IsSpace(core[|core| - 1])
    requires forall c | c in after :: IsSpace(c)
    ensures TrimRight(core + after) == core
  {
    if after == "" {
      assert core + after == core;
    } else {
      var s := core + after;
      assert s[|s| - 1] == after[|after| - 1] && s[..|s| - 1] == core + after[..|after| - 1];
      TrimRightStops(core, after[..|after| - 1]);
    }
  }

  /** The six space characters. */
  const SPACES: string := " \t\n\r\U{0B}\U{0C}"

  ghost predicate Around(s: string, before: string, core: string, after: string) {
    && s == before + core + after
    && (forall i | 0 <= i < |before| :: before[i] in SPACES)
    && (forall i | 0 <= i < |after| :: after[i] in SPACES)
  }

  /** Trimming gives a text without space at its ends exactly if only space surrounds it. */
  lemma TrimExactly(s: string, core: string)
    requires core == "" || (core[0] !in SPACES && core[|core| - 1] !in SPACES)
    ensures Trim(s) == core <==> exists before, after :: Around(s, before, core, after)
  {
    hide Trim;
    SixSpaces();
    if Trim(s) == core {
      var before, after := TrimSplits(s);
    }
    if before, after :| Around(s, before, core, after) {
      hide IsSpace;
      TrimCharacterised(s, before, core, after);
    }
  }

  lemma SixSpaces()
    ensures forall c :: IsSpace(c) <==> c in SPACES
  {
    assert SPACES[0] == ' ' && SPACES[1] as int == 9 && SPACES[2] as int == 10 && SPACES[3] as int == 13;
    assert SPACES[4] as int == 11 && SPACES[5] as int == 12;
  }

  lemma {:induction false} TrimSplits(s: string) returns (before: string, after: string)
    ensures Around(s, before, Trim(s), after)
  {
    SixSpaces();
    if s != "" && IsSpace(s[0]) {
      before, after := TrimSplits(s[1..]);
      before := [s[0]] + before;
      assert s == [s[0]] + s[1..];
    } else {
      before := "";
      after := RightSplits(s);
      assert "" + TrimRight(s) == TrimRight(s);
    }
  }

  lemma {:induction false} RightSplits(s: string) returns (after: string)
    ensures Around(s, "", TrimRight(s), after)
  {
    SixSpaces();
    after := "";
    if s != "" && IsSpace(s[|s| - 1]) {
      after := RightSplits(s[..|s| - 1]);
      after := after + [s[|s| - 1]];
      assert s == s[..|s| - 1] + [s[|s| - 1]];
    }
  }

  /** Strings without space at either end are the fixed points of trimming. */
  lemma TrimFixed(s: string)
    requires s == "" || (!IsSpace(s[0]) && !IsSpace(s[|s| - 1]))
    ensures Trim(s) == s
  {
    TrimCharacterised(s, "", s, "");
  }

  /** Concatenation of a list of pieces, in order. */
  function Flatten(parts: seq<string>): string {
    if parts == [] then "" else parts[0] + Flatten(parts[1..])
  }

  lemma {:induction false} FlattenSnoc(parts: seq<string>, last: string)
    ensures Flatten(parts + [last]) == Flatten(parts) + last
  {
    if parts == [] {
      assert parts + [last] == [last];
    } else {
      assert (parts + [last])[1..] == parts[1..] + [last];
      FlattenSnoc(parts[1..], last);
    }
  }
}
