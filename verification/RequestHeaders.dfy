/** Injected request metadata (`inject_request_metadata` in `backend/src/server/http_dispatch.cpp`)
    and header lookup (`header_value_from_request` in `backend/src/auth/session.cpp`). */
module RequestHeaders {
  import opened Text

  // ---------------------------------------------------------------------------------
  // Lookup
  // ---------------------------------------------------------------------------------

  predicate CrLfAt(s: string, i: nat) {
    i + 1 < |s| && s[i] == '\r' && s[i + 1] == '\n'
  }

  /** Index of the first CR LF, or the length. */
  function FindCrLf(s: string): (i: nat)
    ensures i <= |s| && (i < |s| ==> CrLfAt(s, i))
  {
    if s == "" || CrLfAt(s, 0) then 0 else 1 + FindCrLf(s[1..])
  }

  function Lower(c: char): char {
    if 'A' <= c <= 'Z' then (c as int - 'A' as int + 'a' as int) as char else c
  }

  predicate SameName(key: string, name: string) {
    |key| == |name| && forall i | 0 <= i < |key| :: Lower(key[i]) == Lower(name[i])
  }

  predicate IsBlank(c: char) {
    c == ' ' || c == '\t'
  }

  function StripLeft(s: string): string {
    if s != "" && IsBlank(s[0]) then StripLeft(s[1..]) else s
  }

  function StripRight(s: string): string {
    if s != "" && IsBlank(s[|s| - 1]) then StripRight(s[..|s| - 1]) else s
  }

  /** The line is a header of that name. */
  predicate Names(line: string, name: string) {
    var colon := Find(line, ':');
    colon < |line| && SameName(line[..colon], name)
  }

  function HeaderValue(line: string): string {
    var colon := Find(line, ':');
    if colon < |line| then StripRight(StripLeft(line[colon + 1..])) else ""
  }

  /** The first header of that name before the first empty line; empty when there is none. */
  function Lookup(request: string, name: string): string
    decreases |request|
  {
    var end := FindCrLf(request);
    if end == |request| || end == 0 then ""
    else if Names(request[..end], name) then HeaderValue(request[..end])
    else Lookup(request[end + 2..], name)
  }

  lemma LookupUnfold(request: string, name: string)
    ensures var end := FindCrLf(request);
            Lookup(request, name) ==
              if end == |request| || end == 0 then ""
              else if Names(request[..end], name) then HeaderValue(request[..end])
              else Lookup(request[end + 2..], name)
  {
    hide FindCrLf, Names, HeaderValue, CrLfAt;
  }

  method HeaderValueFromRequest(request: string, name: string) returns (value: string)
    ensures value == Lookup(request, name)
  {
    hide Lower, StripLeft, StripRight, Find, Lookup, FindCrLf, SameName;
    var lineStart := 0;
    assert request[0..] == request;
    while lineStart < |request|
      invariant 0 <= lineStart <= |request|
      invariant Lookup(request[lineStart..], name) == Lookup(request, name)
    {
      var rest := request[lineStart..];
      LookupUnfold(rest, name);
      var end := FindCrLf(rest);
      if end == |rest| || end == 0 {
        break;
      }
      var line := rest[..end];
      assert rest[end + 2..] == request[lineStart + end + 2..];
      lineStart := lineStart + end + 2;
      var colon := Find(line, ':');
      if colon == |line| {
        continue;
      }
      var equal := CompareNames(line[..colon], name);
      if !equal {
        continue;
      }
      var field := line[colon + 1..];
      value := StripBlanks(field);
      return value;
    }
    LookupUnfold(request[lineStart..], name);
    return "";
  }

  method CompareNames(key: string, name: string) returns (equal: bool)
    ensures equal == SameName(key, name)
  {
    if |key| != |name| {
      return false;
    }
    for i := 0 to |key|
      invariant forall k | 0 <= k < i :: Lower(key[k]) == Lower(name[k])
    {
      if Lower(key[i]) != Lower(name[i]) {
        return false;
      }
    }
    return true;
  }

  method StripBlanks(field: string) returns (value: string)
    ensures value == StripRight(StripLeft(field))
  {
    value := field;
    while value != "" && IsBlank(value[0])
      invariant StripLeft(value) == StripLeft(field)
      decreases |value|
    {
      value := value[1..];
    }
    assert value == StripLeft(field);
    while value != "" && IsBlank(value[|value| - 1])
      invariant StripRight(value) == StripRight(StripLeft(field))
      decreases |value|
    {
      value := value[..|value| - 1];
    }
  }

  /** The same letter, in whatever case. */
  predicate SameLetter(a: char, b: char) {
    || a == b
    || ('A' <= a <= 'Z' && b as int == a as int + 32)
    || ('A' <= b <= 'Z' && a as int == b as int + 32)
  }

  ghost predicate Blanks(s: string) {
    forall i | 0 <= i < |s| :: s[i] == ' ' || s[i] == '\t'
  }

  /** What a header line is: its name is what stands before the first colon, in any case, and its
      value what stands after it, without the blanks around. */
  lemma HeaderLineRead(key: string, before: string, value: string, after: string, name: string)
    requires ':' !in key && Blanks(before) && Blanks(after)
    requires value != "" ==> !Blanks([value[0]]) && !Blanks([value[|value| - 1]])
    ensures var line := key + ":" + before + value + after;
            && (Names(line, name) <==>
                  |key| == |name| && forall i | 0 <= i < |key| :: SameLetter(key[i], name[i]))
            && HeaderValue(line) == value
  {
    hide Lower, StripLeft, StripRight;
    var line := key + ":" + before + value + after;
    var field := before + (value + after);
    assert line[..|key|] == key && line[|key| + 1..] == field;
    FindAt(line, ':', |key|);
    SameNameExactly(key, name);
    if value != "" {
      assert [value[0]][0] == value[0] && [value[|value| - 1]][0] == value[|value| - 1];
      StripLeftBlanks(before, value + after);
      StripRightBlanks(value, after);
    } else {
      var blanks := before + after;
      assert field == blanks && blanks + "" == blanks && Blanks(blanks);
      StripLeftBlanks(blanks, "");
      assert "" + "" == "";
      StripRightBlanks("", "");
    }
  }

  lemma SameNameExactly(key: string, name: string)
    ensures SameName(key, name) <==> |key| == |name| && forall i | 0 <= i < |key| :: SameLetter(key[i], name[i])
  {
    assert forall a, b :: Lower(a) == Lower(b) <==> SameLetter(a, b) by {
      hide SameName;
    }
    hide Lower, SameLetter;
  }

  lemma {:induction false} StripLeftBlanks(blanks: string, rest: string)
    requires Blanks(blanks) && (rest != "" ==> !IsBlank(rest[0]))
    ensures StripLeft(blanks + rest) == rest
  {
    if blanks == "" {
      assert blanks + rest == rest;
    } else {
      assert (blanks + rest)[1..] == blanks[1..] + rest;
      StripLeftBlanks(blanks[1..], rest);
    }
  }

  lemma {:induction false} StripRightBlanks(core: string, blanks: string)
    requires Blanks(blanks) && (core != "" ==> !IsBlank(core[|core| - 1]))
    ensures StripRight(core + blanks) == core
  {
    var s := core + blanks;
    if blanks == "" {
      assert s == core;
    } else {
      assert s[|s| - 1] == blanks[|blanks| - 1] && s[..|s| - 1] == core + blanks[..|blanks| - 1];
      StripRightBlanks(core, blanks[..|blanks| - 1]);
    }
  }

  /** A line without a colon is no header. */
  lemma NoColonNoHeader(line: string, name: string)
    ensures ':' !in line <==> Find(line, ':') == |line|
    ensures ':' !in line ==> !Names(line, name)
  {
    assert line[..|line|] == line;
  }

  // ---------------------------------------------------------------------------------
  // Injection
  // ---------------------------------------------------------------------------------

  const CLIENT_IP: string := "X-Revlm-Client-Ip"
  const REMOTE_IP: string := "X-Revlm-Remote-Ip"

  function HeaderLine(name: string, value: string): string {
    name + ": " + value
  }

  /** Both lines go in right after the request line; the later insertion ends up first. */
  function Injected(request: string, ip: string): string {
    var end := FindCrLf(request);
    if end == |request| || ip == "" then request
    else
      request[..end + 2] +
      (HeaderLine(CLIENT_IP, ip) + "\r\n" + (HeaderLine(REMOTE_IP, ip) + "\r\n" + request[end + 2..]))
  }

  method InjectRequestMetadata(request: string, clientIp: string) returns (enriched: string)
    ensures enriched == Injected(request, clientIp)
    ensures var end := FindCrLf(request);
            enriched ==
              if end == |request| || clientIp == "" then request
              else
                request[..end + 2] + (CLIENT_IP + ": " + clientIp + "\r\n" +
                                      (REMOTE_IP + ": " + clientIp + "\r\n" + request[end + 2..]))
  {
    hide FindCrLf;
    enriched := request;
    var end := FindCrLf(enriched);
    if end == |enriched| || clientIp == "" {
      return;
    }
    enriched := InsertAt(enriched, end + 2, REMOTE_IP + ": " + clientIp + "\r\n");
    enriched := InsertAt(enriched, end + 2, CLIENT_IP + ": " + clientIp + "\r\n");
    TwoInsertions(request, end + 2, CLIENT_IP + ": " + clientIp, REMOTE_IP + ": " + clientIp);
  }

  /** `std::string::insert` */
  function InsertAt(s: string, at: nat, piece: string): string
    requires at <= |s|
  {
    s[..at] + piece + s[at..]
  }

  lemma TwoInsertions(s: string, at: nat, a: string, b: string)
    requires at <= |s|
    ensures InsertAt(InsertAt(s, at, b + "\r\n"), at, a + "\r\n") ==
              s[..at] + (a + "\r\n" + (b + "\r\n" + s[at..]))
  {
    var once := InsertAt(s, at, b + "\r\n");
    assert once[..at] == s[..at] && once[at..] == b + "\r\n" + s[at..];
  }

  // ---------------------------------------------------------------------------------
  // Injection and lookup agree
  // ---------------------------------------------------------------------------------

  ghost predicate NoCrLf(s: string) {
    forall i: nat :: !CrLfAt(s, i)
  }

  lemma {:induction false} FindAfter(line: string, rest: string)
    requires NoCrLf(line)
    ensures FindCrLf(line + "\r\n" + rest) == |line|
  {
    var s := line + "\r\n" + rest;
    if line != "" {
      assert s[1..] == line[1..] + "\r\n" + rest;
      assert !CrLfAt(line, 0);
      assert forall i: nat :: CrLfAt(line[1..], i) ==> CrLfAt(line, i + 1);
      FindAfter(line[1..], rest);
    }
  }

  lemma {:induction false} FirstLine(s: string)
    ensures NoCrLf(s[..FindCrLf(s)])
  {
    var e := FindCrLf(s);
    if e > 0 {
      FirstLine(s[1..]);
      assert s[..e][1..] == s[1..][..e - 1];
      forall i: nat ensures !CrLfAt(s[..e], i) {
        assert !CrLfAt(s, 0);
        if i > 0 {
          assert CrLfAt(s[..e], i) ==> CrLfAt(s[1..][..e - 1], i - 1);
        }
      }
    }
  }

  /** Looking past one complete line. */
  lemma LookupLine(line: string, rest: string, name: string)
    requires NoCrLf(line) && line != ""
    ensures Lookup(line + "\r\n" + rest, name) == if Names(line, name) then HeaderValue(line) else Lookup(rest, name)
  {
    hide Find, FindCrLf, StripLeft, StripRight;
    FindAfter(line, rest);
    var s := line + "\r\n" + rest;
    assert s[..|line|] == line && s[|line| + 2..] == rest;
  }

  predicate IsIp(ip: string) {
    && ip != "" && !IsBlank(ip[0]) && !IsBlank(ip[|ip| - 1])
    && forall i | 0 <= i < |ip| :: ip[i] != '\r' && ip[i] != '\n'
  }

  predicate IsName(name: string) {
    name != "" && forall i | 0 <= i < |name| :: name[i] != ':' && name[i] != ' ' && name[i] != '\r'
  }

  lemma InjectedLine(field: string, ip: string, name: string)
    requires IsName(field) && IsIp(ip)
    ensures NoCrLf(HeaderLine(field, ip)) && HeaderLine(field, ip) != ""
    ensures Names(HeaderLine(field, ip), name) <==> SameName(field, name)
    ensures HeaderValue(HeaderLine(field, ip)) == ip
  {
    hide Lower;
    var line := HeaderLine(field, ip);
    assert line[..|field|] == field && line[|field| + 1..] == " " + ip;
    FindAt(line, ':', |field|);
    assert StripLeft(" " + ip) == StripLeft(ip) == ip by {
      assert (" " + ip)[1..] == ip;
    }
    forall i: nat | i + 1 < |line| ensures !CrLfAt(line, i) {
      assert line[i] == if i < |field| then field[i] else (": " + ip)[i - |field|];
    }
  }

  /** What a lookup finds after injection. Nothing is found, as before, when the request line is
      empty; a request line that itself names the header wins; otherwise the two injected names
      give the ip whatever headers the client sent, and every other name what it gave before. */
  lemma LookupAfterInjection(request: string, ip: string, name: string)
    requires IsIp(ip) && FindCrLf(request) < |request|
    ensures var end := FindCrLf(request);
            Lookup(Injected(request, ip), name) ==
              if end == 0 then ""
              else if Names(request[..end], name) then HeaderValue(request[..end])
              else if SameName(CLIENT_IP, name) || SameName(REMOTE_IP, name) then ip
              else Lookup(request, name)
  {
    hide Lookup, Find, FindCrLf, Lower, StripLeft, StripRight;
    var end := FindCrLf(request);
    var line, rest := request[..end], request[end + 2..];
    FirstLine(request);
    assert request == line + "\r\n" + rest;
    var tail := HeaderLine(REMOTE_IP, ip) + "\r\n" + rest;
    var body := HeaderLine(CLIENT_IP, ip) + "\r\n" + tail;
    assert Injected(request, ip) == line + "\r\n" + body;
    InjectedLine(CLIENT_IP, ip, name);
    InjectedLine(REMOTE_IP, ip, name);
    LookupLine(HeaderLine(CLIENT_IP, ip), tail, name);
    LookupLine(HeaderLine(REMOTE_IP, ip), rest, name);
    if end == 0 {
      EmptyLine(body, name);
    } else {
      LookupLine(line, body, name);
      LookupLine(line, rest, name);
    }
  }

  lemma EmptyLine(rest: string, name: string)
    ensures Lookup("" + "\r\n" + rest, name) == ""
  {
    assert CrLfAt("" + "\r\n" + rest, 0);
  }

  lemma {:induction false} ColonAfter(line: string, space: nat)
    requires space < |line| && line[space] == ' ' && ':' !in line[..space]
    ensures Find(line, ':') > space
  {
    assert space > 0 ==> line[..space][0] == line[0];
    if space > 0 {
      assert line[1..][..space - 1] == line[..space][1..];
      ColonAfter(line[1..], space - 1);
    }
  }

  /** A request line with a space before any colon names no header. */
  lemma RequestLineNamesNothing(line: string, name: string, space: nat)
    requires space < |line| && line[space] == ' ' && ':' !in line[..space] && IsName(name)
    ensures !Names(line, name)
  {
    hide Find;
    ColonAfter(line, space);
    var key := line[..Find(line, ':')];
    assert key[space] == ' ';
    assert |key| == |name| ==> Lower(key[space]) != Lower(name[space]);
  }

  /** The theorem for ordinary requests: what the client sent cannot hide or replace the
      injected ip, and all its other headers read as before. */
  lemma InjectedIpWins(request: string, ip: string, space: nat, name: string)
    requires IsIp(ip) && FindCrLf(request) < |request|
    requires space < FindCrLf(request) && request[space] == ' ' && ':' !in request[..space]
    requires IsName(name)
    ensures Lookup(Injected(request, ip), name) ==
              if SameName(CLIENT_IP, name) || SameName(REMOTE_IP, name) then ip else Lookup(request, name)
  {
    hide Lookup, Find, FindCrLf, Injected, StripLeft, StripRight, Names, SameName;
    var line := request[..FindCrLf(request)];
    assert line[..space] == request[..space];
    RequestLineNamesNothing(line, name, space);
    LookupAfterInjection(request, ip, name);
  }
}
